/** The token reader of the JSON preview: one cursor moves over the tokens while a
    budget counts nodes and bounds depth. */
module JsonReader {
  import opened Common
  import opened JsonLeaves
  import opened JsonTree

  const MAX_NODES := 20000
  const MAX_DEPTH := 40

  datatype Token = Open(isList: bool) | Close(isList: bool) | Comma | Colon
    | Quoted(value: string) | Word(text: string, number: bool)

  /** A value's tokens, in order. */
  function Tokens(v: Json): seq<Token>
    decreases v
  {
    match v
    case Text(value) => [Quoted(value)]
    case Literal(text, number) => [Word(text, number)]
    case Container(isList, members) => [Open(isList)] + MemberTokens(isList, members)
  }

  /** The members' tokens and the bracket that closes them. */
  function MemberTokens(isList: bool, ms: seq<Member>): seq<Token>
    decreases ms
  {
    if ms == [] then [Close(isList)]
    else KeyTokens(isList, ms[0]) + (Tokens(ms[0].value) + (Separator(ms) + MemberTokens(isList, ms[1..])))
  }

  function Separator(ms: seq<Member>): seq<Token> {
    if |ms| > 1 then [Comma] else []
  }

  function KeyTokens(isList: bool, m: Member): seq<Token> {
    if isList then [] else [Quoted(m.key), Colon]
  }

  // ----- reading, as a function of the position -----

  datatype Read<T> = Abort | Done(value: T, cursor: nat, count: nat)

  function Left(ts: seq<Token>, c: nat): nat {
    if c < |ts| then |ts| - c else 0
  }

  /** A token that opens nothing is shown as it stands. */
  function Spelling(t: Token): string {
    match t
    case Open(isList) => if isList then "[" else "{"
    case Close(isList) => if isList then "]" else "}"
    case Comma => ","
    case Colon => ":"
    case Quoted(value) => value
    case Word(text, _) => text
  }

  function TokenKind(t: Token): Kind {
    if t.Quoted? then StringKind else if t.Word? then LiteralKind(t.number) else KeywordKind
  }

  function ReadAt(st: Style, ts: seq<Token>, c: nat, n: nat, name: string, depth: nat): (r: Read<Option<Node>>)
    ensures r.Done? ==> r.cursor > c
    decreases Left(ts, c), 0
  {
    if n + 1 > MAX_NODES || depth > MAX_DEPTH || c >= |ts| then Abort
    else if ts[c].Open? then
      match MembersAt(st, ts, c + 1, n + 1, depth, ts[c].isList, [])
      case Abort => Abort
      case Done(children, c', n') => Done(MakeGroup(st, name, children, ts[c].isList), c', n')
    else Done(MakeLeaf(st, name, Spelling(ts[c]), TokenKind(ts[c])), c + 1, n + 1)
  }

  function MembersAt(st: Style, ts: seq<Token>, c: nat, n: nat, depth: nat, isList: bool, children: seq<Option<Node>>)
    : (r: Read<seq<Option<Node>>>)
    ensures r.Done? ==> r.cursor > c
    decreases Left(ts, c), 1
  {
    if c < |ts| && ts[c] == Close(isList) then Done(children, c + 1, n)
    else if !isList && (c >= |ts| || !ts[c].Quoted?) then Abort
    else
      var name := if isList then "Item " + Digits(|children| + 1) else ts[c].value;
      match ReadAt(st, ts, if isList then c else c + 2, n, name, depth + 1)
      case Abort => Abort
      case Done(child, c', n') =>
        MembersAt(st, ts, PastComma(ts, c'), n', depth, isList, children + [child])
  }

  function PastComma(ts: seq<Token>, c: nat): nat {
    if c < |ts| && ts[c] == Comma then c + 1 else c
  }

  /** One round of the loop over members. */
  lemma {:induction false} MembersNext(st: Style, ts: seq<Token>, c: nat, n: nat, depth: nat, isList: bool,
                                       children: seq<Option<Node>>)
    requires !(c < |ts| && ts[c] == Close(isList))
    ensures
      MembersAt(st, ts, c, n, depth, isList, children) ==
      if !isList && (c >= |ts| || !ts[c].Quoted?) then Abort
      else
        var name := if isList then "Item " + Digits(|children| + 1) else ts[c].value;
        var r := ReadAt(st, ts, if isList then c else c + 2, n, name, depth + 1);
        if r.Abort? then Abort
        else MembersAt(st, ts, PastComma(ts, r.cursor), r.count, depth, isList, children + [r.value])
  {
  }

  // ----- the reader -----

  class Reader {
    const st: Style
    const tokens: seq<Token>
    var cursor: nat
    var count: nat
    /** The depth of every node visit the budget allowed. */
    ghost var visits: seq<nat>

    constructor (st: Style, tokens: seq<Token>)
      ensures this.tokens == tokens && this.st == st && cursor == 0 && count == 0 && Bounded()
    {
      this.st, this.tokens := st, tokens;
      cursor, count, visits := 0, 0, [];
    }

    ghost predicate Bounded()
      reads this
    {
      |visits| <= count && |visits| <= MAX_NODES && forall i :: 0 <= i < |visits| ==> visits[i] <= MAX_DEPTH
    }

    method Budget(depth: nat) returns (ok: bool)
      requires Bounded()
      modifies `count, `visits
      ensures Bounded() && count == old(count) + 1 && ok == (count <= MAX_NODES && depth <= MAX_DEPTH)
      ensures visits == if ok then old(visits) + [depth] else old(visits)
    {
      count := count + 1;
      ok := count <= MAX_NODES && depth <= MAX_DEPTH;
      if ok { visits := visits + [depth]; }
    }

    /** For every token list the reader aborts or reads what `ReadAt` says, and either way the visits it made were
        within the limits. */
    method Read(name: string, depth: nat) returns (r: Option<Option<Node>>)
      requires Bounded()
      modifies this
      ensures Bounded()
      ensures var spec := ReadAt(st, tokens, old(cursor), old(count), name, depth);
              if spec.Abort? then r == None else r == Some(spec.value) && cursor == spec.cursor && count == spec.count
      decreases Left(tokens, cursor), 0
    {
      var ok := Budget(depth);
      if !ok || cursor >= |tokens| { return None; }
      var token := tokens[cursor];
      cursor := cursor + 1;
      if !token.Open? {
        return Some(MakeLeaf(st, name, Spelling(token), TokenKind(token)));
      }
      var children := ReadMembers(depth, token.isList);
      if children.None? { return None; }
      return Some(MakeGroup(st, name, children.value, token.isList));
    }

    /** One member: its key, its value and a comma after it. */
    method ReadMember(depth: nat, isList: bool, index: nat) returns (r: Option<Option<Node>>)
      requires Bounded()
      modifies this
      ensures Bounded()
      ensures
        var c := old(cursor);
        if !isList && (c >= |tokens| || !tokens[c].Quoted?) then r == None
        else
          var name := if isList then "Item " + Digits(index) else tokens[c].value;
          var spec := ReadAt(st, tokens, if isList then c else c + 2, old(count), name, depth + 1);
          if spec.Abort? then r == None
          else r == Some(spec.value) && cursor == PastComma(tokens, spec.cursor) && count == spec.count
      decreases Left(tokens, cursor), 1
    {
      var key;
      if isList {
        key := "Item " + Digits(index);
      } else {
        if cursor >= |tokens| || !(tokens[cursor].Quoted? || tokens[cursor].Word?) { return None; }
        if tokens[cursor].Word? {
          // A key that is no string: its value is still read, and then using the key as a name fails.
          cursor := cursor + 2;
          var _ := Read("", depth + 1);
          return None;
        }
        key := tokens[cursor].value;
        cursor := cursor + 2;
      }
      r := Read(key, depth + 1);
      if r.Some? && cursor < |tokens| && tokens[cursor] == Comma { cursor := cursor + 1; }
    }

    /** The members up to the closing bracket. */
    method ReadMembers(depth: nat, isList: bool) returns (r: Option<seq<Option<Node>>>)
      requires Bounded()
      modifies this
      ensures Bounded()
      ensures var spec := MembersAt(st, tokens, old(cursor), old(count), depth, isList, []);
              if spec.Abort? then r == None else r == Some(spec.value) && cursor == spec.cursor && count == spec.count
      decreases Left(tokens, cursor), 2
    {
      ghost var goal := MembersAt(st, tokens, cursor, count, depth, isList, []);
      ghost var start := cursor;
      var children: seq<Option<Node>> := [];
      while !(cursor < |tokens| && tokens[cursor] == Close(isList))
        invariant Bounded() && cursor >= start
        invariant MembersAt(st, tokens, cursor, count, depth, isList, children) == goal
        decreases Left(tokens, cursor)
      {
        ghost var here, was := cursor, count;
        var child := ReadMember(depth, isList, |children| + 1);
        MembersNext(st, tokens, here, was, depth, isList, children);
        if child.None? { return None; }
        children := children + [child.value];
      }
      cursor := cursor + 1;
      return Some(children);
    }
  }

  // ----- the tokens of a value -----

  ghost predicate At(ts: seq<Token>, c: nat, part: seq<Token>) {
    c + |part| <= |ts| && ts[c..c + |part|] == part
  }

  lemma {:induction false} AtParts(ts: seq<Token>, c: nat, a: seq<Token>, b: seq<Token>)
    requires At(ts, c, a + b)
    ensures At(ts, c, a) && At(ts, c + |a|, b)
  {
    assert ts[c..c + |a|] == (a + b)[..|a|];
    assert ts[c + |a|..c + |a + b|] == (a + b)[|a|..];
  }

  lemma {:induction false} AtFirst(ts: seq<Token>, c: nat, part: seq<Token>)
    requires At(ts, c, part) && part != []
    ensures c < |ts| && ts[c] == part[0]
  {
    assert ts[c] == ts[c..c + |part|][0];
  }

  /** What reading a value must give: its tree, exactly its tokens consumed and its nodes counted, or an abort
      when it is too large. */
  function Expected(st: Style, v: Json, c: nat, n: nat, name: string, depth: nat): Read<Option<Node>> {
    if n + Nodes(v) <= MAX_NODES && depth + Height(v) <= MAX_DEPTH
    then Done(Tree(st, v, name), c + |Tokens(v)|, n + Nodes(v)) else Abort
  }

  function ExpectedAll(st: Style, ms: seq<Member>, c: nat, n: nat, depth: nat, isList: bool,
                       children: seq<Option<Node>>)
    : Read<seq<Option<Node>>>
  {
    if n + NodesAll(ms) <= MAX_NODES && depth + HeightAll(ms) <= MAX_DEPTH
    then Done(children + Trees(st, isList, ms, |children|), c + |MemberTokens(isList, ms)|, n + NodesAll(ms)) else Abort
  }

  lemma {:induction false} TokensFirst(v: Json)
    ensures Tokens(v) != [] && !Tokens(v)[0].Close?
  {
  }

  /** Reading one member and then the rest is reading them all. */
  lemma {:induction false} ExpectedNext(st: Style, ms: seq<Member>, c: nat, n: nat, depth: nat, isList: bool,
                                        children: seq<Option<Node>>, first: Read<Option<Node>>,
                                        rest: Read<seq<Option<Node>>>, more: nat)
    requires ms != [] && n <= MAX_NODES && depth <= MAX_DEPTH && more == if |ms| > 1 then 1 else 0
    requires first == Expected(st, ms[0].value, c + |KeyTokens(isList, ms[0])|, n,
                               MemberName(isList, ms[0], |children|), depth + 1)
    requires first.Done? ==>
      rest == ExpectedAll(st, ms[1..], first.cursor + more, first.count, depth, isList, children + [first.value])
    ensures ExpectedAll(st, ms, c, n, depth, isList, children) == if first.Abort? then Abort else rest
  {
    var name := MemberName(isList, ms[0], |children|);
    var tree, trees := Tree(st, ms[0].value, name), Trees(st, isList, ms[1..], |children| + 1);
    assert children + ([tree] + trees) == (children + [tree]) + trees;
  }

  lemma {:induction false} ReadOpen(st: Style, ts: seq<Token>, c: nat, n: nat, name: string, depth: nat, isList: bool,
                                    r: Read<seq<Option<Node>>>)
    requires c < |ts| && ts[c] == Open(isList) && n + 1 <= MAX_NODES && depth <= MAX_DEPTH
    requires r == MembersAt(st, ts, c + 1, n + 1, depth, isList, [])
    ensures ReadAt(st, ts, c, n, name, depth) ==
            if r.Abort? then Abort else Done(MakeGroup(st, name, r.value, isList), r.cursor, r.count)
  {
  }

  lemma {:induction false} ExpectedContainer(st: Style, v: Json, c: nat, n: nat, name: string, depth: nat,
                                             r: Read<seq<Option<Node>>>)
    requires v.Container? && r == ExpectedAll(st, v.members, c + 1, n + 1, depth, v.isList, [])
    ensures Expected(st, v, c, n, name, depth) ==
            if r.Abort? then Abort else Done(MakeGroup(st, name, r.value, v.isList), r.cursor, r.count)
  {
    assert [] + Trees(st, v.isList, v.members, 0) == Trees(st, v.isList, v.members, 0);
  }

  lemma {:induction false} ReadsScalar(st: Style, ts: seq<Token>, c: nat, n: nat, v: Json, name: string, depth: nat)
    requires c < |ts| && !v.Container? && ts[c] == Tokens(v)[0]
    ensures ReadAt(st, ts, c, n, name, depth) == Expected(st, v, c, n, name, depth)
  {
  }

  lemma {:induction false} ReadsContainer(st: Style, ts: seq<Token>, c: nat, n: nat, v: Json, name: string, depth: nat,
                                          r: Read<seq<Option<Node>>>)
    requires c < |ts| && v.Container? && ts[c] == Open(v.isList) && n + 1 <= MAX_NODES && depth <= MAX_DEPTH
    requires r == MembersAt(st, ts, c + 1, n + 1, depth, v.isList, [])
               == ExpectedAll(st, v.members, c + 1, n + 1, depth, v.isList, [])
    ensures ReadAt(st, ts, c, n, name, depth) == Expected(st, v, c, n, name, depth)
  {
    ReadOpen(st, ts, c, n, name, depth, v.isList, r);
    ExpectedContainer(st, v, c, n, name, depth, r);
  }

  lemma {:induction false} ContainerPlaced(ts: seq<Token>, c: nat, v: Json)
    requires v.Container? && At(ts, c, Tokens(v))
    ensures c < |ts| && ts[c] == Open(v.isList) && At(ts, c + 1, MemberTokens(v.isList, v.members))
  {
    AtParts(ts, c, [Open(v.isList)], MemberTokens(v.isList, v.members));
    AtFirst(ts, c, [Open(v.isList)]);
  }

  lemma {:induction false} ReadsNothing(st: Style, ts: seq<Token>, c: nat, n: nat, v: Json, name: string, depth: nat)
    requires n + 1 > MAX_NODES || depth > MAX_DEPTH
    ensures ReadAt(st, ts, c, n, name, depth) == Expected(st, v, c, n, name, depth)
  {
  }

  /** Wherever a value's tokens stand, reading there consumes exactly them and gives the tree of structural recursion,
      unless the value has too many nodes or is too deep, in which case the reader aborts. */
  lemma {:induction false} ReadsValue(st: Style, ts: seq<Token>, c: nat, n: nat, v: Json, name: string, depth: nat)
    requires At(ts, c, Tokens(v))
    ensures ReadAt(st, ts, c, n, name, depth) == Expected(st, v, c, n, name, depth)
    decreases v
  {
    if n + 1 > MAX_NODES || depth > MAX_DEPTH {
      ReadsNothing(st, ts, c, n, v, name, depth);
    } else if v.Container? {
      ContainerPlaced(ts, c, v);
      ReadsMembers(st, ts, c + 1, n + 1, v.members, depth, v.isList, []);
      ReadsContainer(st, ts, c, n, v, name, depth, MembersAt(st, ts, c + 1, n + 1, depth, v.isList, []));
    } else {
      AtFirst(ts, c, Tokens(v));
      ReadsScalar(st, ts, c, n, v, name, depth);
    }
  }

  /** Where the parts of a non-empty member list stand: the first value from `start` to `end`, the
      others from `next`. */
  ghost predicate Placed(ts: seq<Token>, c: nat, ms: seq<Member>, isList: bool, start: nat, end: nat, next: nat)
    requires ms != []
  {
    && start == c + |KeyTokens(isList, ms[0])| && end == start + |Tokens(ms[0].value)| && next == PastComma(ts, end)
    && next == end + (if |ms| > 1 then 1 else 0)
    && c < |ts| && ts[c] != Close(isList) && (!isList ==> ts[c] == Quoted(ms[0].key))
  }

  lemma {:induction false} MembersReadFirst(st: Style, ts: seq<Token>, c: nat, n: nat, ms: seq<Member>, depth: nat,
                                            isList: bool, children: seq<Option<Node>>, start: nat, end: nat, next: nat,
                                            first: Read<Option<Node>>, rest: Read<seq<Option<Node>>>)
    requires ms != [] && Placed(ts, c, ms, isList, start, end, next) && (first.Done? ==> first.cursor == end)
    requires first == ReadAt(st, ts, start, n, MemberName(isList, ms[0], |children|), depth + 1)
    requires first.Done? ==> rest == MembersAt(st, ts, next, first.count, depth, isList, children + [first.value])
    ensures MembersAt(st, ts, c, n, depth, isList, children) == if first.Abort? then Abort else rest
  {
    MembersNext(st, ts, c, n, depth, isList, children);
  }

  /** Reading the first member and, from where that ends, the rest. */
  lemma {:induction false} ReadsFirst(st: Style, ts: seq<Token>, c: nat, n: nat, ms: seq<Member>, depth: nat,
                                      isList: bool, children: seq<Option<Node>>, start: nat, end: nat, next: nat,
                                      first: Read<Option<Node>>, rest: Read<seq<Option<Node>>>,
                                      all: Read<seq<Option<Node>>>, wanted: Read<seq<Option<Node>>>)
    requires ms != [] && n <= MAX_NODES && depth <= MAX_DEPTH && Placed(ts, c, ms, isList, start, end, next)
    requires first == ReadAt(st, ts, start, n, MemberName(isList, ms[0], |children|), depth + 1)
    requires first == Expected(st, ms[0].value, start, n, MemberName(isList, ms[0], |children|), depth + 1)
    requires first.Done? ==> rest == MembersAt(st, ts, next, first.count, depth, isList, children + [first.value])
    requires first.Done? ==>
               rest == ExpectedAll(st, ms[1..], next, first.count, depth, isList, children + [first.value])
    requires all == MembersAt(st, ts, c, n, depth, isList, children)
    requires wanted == ExpectedAll(st, ms, c, n, depth, isList, children)
    ensures all == wanted
  {
    MembersReadFirst(st, ts, c, n, ms, depth, isList, children, start, end, next, first, rest);
    ExpectedNext(st, ms, c, n, depth, isList, children, first, rest, next - end);
  }

  lemma {:induction false} ReadsMembers(st: Style, ts: seq<Token>, c: nat, n: nat, ms: seq<Member>, depth: nat,
                                        isList: bool, children: seq<Option<Node>>)
    requires At(ts, c, MemberTokens(isList, ms)) && n <= MAX_NODES && depth <= MAX_DEPTH
    ensures MembersAt(st, ts, c, n, depth, isList, children) == ExpectedAll(st, ms, c, n, depth, isList, children)
    decreases ms
  {
    if ms == [] {
      ReadsEnd(st, ts, c, n, depth, isList, children);
    } else {
      var v, name := ms[0].value, MemberName(isList, ms[0], |children|);
      var start, end, next := MembersPlaced(ts, c, ms, isList);
      ReadsValue(st, ts, start, n, v, name, depth + 1);
      var first := ReadAt(st, ts, start, n, name, depth + 1);
      var rest := Abort;
      if first.Done? {
        ReadsMembers(st, ts, next, first.count, ms[1..], depth, isList, children + [first.value]);
        rest := MembersAt(st, ts, next, first.count, depth, isList, children + [first.value]);
      }
      ReadsFirst(st, ts, c, n, ms, depth, isList, children, start, end, next, first, rest,
                 MembersAt(st, ts, c, n, depth, isList, children), ExpectedAll(st, ms, c, n, depth, isList, children));
    }
  }

  lemma {:induction false} ReadsEnd(st: Style, ts: seq<Token>, c: nat, n: nat, depth: nat, isList: bool,
                                    children: seq<Option<Node>>)
    requires At(ts, c, MemberTokens(isList, [])) && n <= MAX_NODES && depth <= MAX_DEPTH
    ensures MembersAt(st, ts, c, n, depth, isList, children) == ExpectedAll(st, [], c, n, depth, isList, children)
  {
    AtFirst(ts, c, MemberTokens(isList, []));
    assert children + [] == children;
  }

  lemma {:induction false} MembersPlaced(ts: seq<Token>, c: nat, ms: seq<Member>, isList: bool)
    returns (start: nat, end: nat, next: nat)
    requires ms != [] && At(ts, c, MemberTokens(isList, ms))
    ensures Placed(ts, c, ms, isList, start, end, next)
    ensures At(ts, start, Tokens(ms[0].value)) && At(ts, next, MemberTokens(isList, ms[1..]))
  {
    var key, body := KeyTokens(isList, ms[0]), Tokens(ms[0].value);
    var more, after := Separator(ms), MemberTokens(isList, ms[1..]);
    start := c + |key|;
    end := start + |body|;
    next := end + |more|;
    TokensFirst(ms[0].value);
    MembersFirst(isList, ms[1..]);
    PartsPlaced(ts, c, key, body, more, after, start, end, next);
  }

  lemma {:induction false} PartsPlaced(ts: seq<Token>, c: nat, key: seq<Token>, body: seq<Token>, more: seq<Token>,
                                       after: seq<Token>, start: nat, end: nat, next: nat)
    requires At(ts, c, key + (body + (more + after))) && body != [] && after != []
    requires more == [Comma] || (more == [] && after[0] != Comma)
    requires start == c + |key| && end == start + |body| && next == end + |more|
    ensures c < |ts| && ts[c] == (if key == [] then body[0] else key[0])
    ensures At(ts, start, body) && next == PastComma(ts, end) && At(ts, next, after)
  {
    KeyPlaced(ts, c, key, body, more + after);
    CommaPlaced(ts, end, more, after);
  }

  lemma {:induction false} MembersFirst(isList: bool, ms: seq<Member>)
    ensures MemberTokens(isList, ms) != [] && (|ms| == 0 ==> MemberTokens(isList, ms)[0] == Close(isList))
  {
  }

  lemma {:induction false} KeyPlaced(ts: seq<Token>, c: nat, key: seq<Token>, body: seq<Token>, tail: seq<Token>)
    requires At(ts, c, key + (body + tail)) && body != []
    ensures At(ts, c + |key|, body) && At(ts, c + |key| + |body|, tail)
    ensures c < |ts| && ts[c] == (if key == [] then body[0] else key[0])
  {
    AtParts(ts, c, key, body + tail);
    AtParts(ts, c + |key|, body, tail);
    if key != [] { AtFirst(ts, c, key); } else { AtFirst(ts, c, body); }
  }

  lemma {:induction false} CommaPlaced(ts: seq<Token>, end: nat, more: seq<Token>, after: seq<Token>)
    requires At(ts, end, more + after) && after != []
    requires more == [Comma] || (more == [] && after[0] != Comma)
    ensures PastComma(ts, end) == end + |more| && At(ts, end + |more|, after)
  {
    AtParts(ts, end, more, after);
    AtFirst(ts, end, more + after);
  }

  /** `parseJson`: the tree of the value, or nothing when it has more than 20000 nodes or is nested deeper than 40. In a
      style that suppresses and rewrites nothing, it shows exactly the scalars of the value, in order. */
  method ParseJson(st: Style, tokens: seq<Token>, ghost v: Json) returns (r: Option<Option<Node>>)
    requires tokens == Tokens(v)
    ensures r == if Nodes(v) <= 20000 && Height(v) <= 40 then Some(Tree(st, v, "")) else None
    ensures r.Some? && Quiet(st) ==> Show(st, LeavesOf(r.value), Scalars(st, v))
  {
    var reader := new Reader(st, tokens);
    r := reader.Read("", 0);
    ReadsValue(st, tokens, 0, 0, v, "", 0);
    if Quiet(st) { TreeShows(st, v, ""); }
  }
}
