/** Escaping and log highlighting: whatever the text and wherever the tokens are
    found, the markup shows exactly the text. */
module Highlight {
  import opened Common

  // ----- escaping -----

  function EscapeChar(c: char): string {
    if c == '&' then "&amp;" else if c == '<' then "&lt;" else if c == '>' then "&gt;"
    else if c == '"' then "&quot;" else if c == '\'' then "&#39;" else [c]
  }

  function Replaced(f: char -> string, s: string): string {
    if s == "" then "" else f(s[0]) + Replaced(f, s[1..])
  }

  function Escape(s: string): string {
    Replaced(EscapeChar, s)
  }

  predicate Starts(s: string, prefix: string) {
    prefix <= s
  }

  /** What a browser shows for the five entities. */
  function Unescape(s: string): string {
    if s == "" then ""
    else if Starts(s, "&amp;") then "&" + Unescape(s[5..])
    else if Starts(s, "&lt;") then "<" + Unescape(s[4..])
    else if Starts(s, "&gt;") then ">" + Unescape(s[4..])
    else if Starts(s, "&quot;") then "\"" + Unescape(s[6..])
    else if Starts(s, "&#39;") then "'" + Unescape(s[5..])
    else [s[0]] + Unescape(s[1..])
  }

  lemma {:induction false} ReplacedJoin(f: char -> string, a: string, b: string)
    ensures Replaced(f, a + b) == Replaced(f, a) + Replaced(f, b)
  {
    if a == "" {
      assert a + b == b;
    } else {
      ReplacedJoin(f, a[1..], b);
      assert (a + b)[1..] == a[1..] + b;
      Associative(f(a[0]), Replaced(f, a[1..]), Replaced(f, b));
    }
  }

  lemma {:induction false} EscapeJoin(a: string, b: string)
    ensures Escape(a + b) == Escape(a) + Escape(b)
  {
    ReplacedJoin(EscapeChar, a, b);
  }

  lemma {:induction false} UnescapeChar(c: char, rest: string)
    ensures Unescape(EscapeChar(c) + rest) == [c] + Unescape(rest)
  {
    var s := EscapeChar(c) + rest;
    assert s[|EscapeChar(c)|..] == rest;
    if c == '&' { assert Starts(s, "&amp;"); }
    else if c == '<' { assert s[1] == 'l'; assert Starts(s, "&lt;"); }
    else if c == '>' { assert s[1] == 'g'; assert Starts(s, "&gt;"); }
    else if c == '"' { assert s[1] == 'q'; assert Starts(s, "&quot;"); }
    else if c == '\'' { assert s[1] == '#'; assert Starts(s, "&#39;"); }
    else { assert s[0] == c && c != '&'; }
  }

  /** Unescaping undoes escaping. */
  lemma {:induction false} EscapeRoundTrip(s: string)
    ensures Unescape(Escape(s)) == s
  {
    if s != "" {
      EscapeRoundTrip(s[1..]);
      UnescapeChar(s[0], Escape(s[1..]));
    }
  }

  lemma {:induction false} EscapeInjective(a: string, b: string)
    requires Escape(a) == Escape(b)
    ensures a == b
  {
    EscapeRoundTrip(a);
    EscapeRoundTrip(b);
  }

  lemma {:induction false} EscapeNoBrackets(s: string)
    ensures '<' !in Escape(s) && '>' !in Escape(s)
  {
    if s != "" { EscapeNoBrackets(s[1..]); }
  }

  // ----- markup -----

  /** The text of markup: everything outside `<...>`. */
  function Stripped(s: string, inTag: bool): string {
    if s == "" then "" else (if inTag || s[0] == '<' then "" else [s[0]]) + Stripped(s[1..], Inside(inTag, s[0]))
  }

  predicate Inside(inTag: bool, c: char) {
    if inTag then c != '>' else c == '<'
  }

  /** Whether the markup ends inside a tag. */
  predicate EndsInside(s: string, inTag: bool) {
    if s == "" then inTag else EndsInside(s[1..], Inside(inTag, s[0]))
  }

  lemma {:induction false} StripJoin(a: string, b: string, inTag: bool)
    ensures Stripped(a + b, inTag) == Stripped(a, inTag) + Stripped(b, EndsInside(a, inTag))
    ensures EndsInside(a + b, inTag) == EndsInside(b, EndsInside(a, inTag))
  {
    if a == "" {
      assert a + b == b;
    } else {
      var now := Inside(inTag, a[0]);
      StripJoin(a[1..], b, now);
      assert (a + b)[1..] == a[1..] + b;
      Associative(if inTag || a[0] == '<' then "" else [a[0]], Stripped(a[1..], now),
                  Stripped(b, EndsInside(a, inTag)));
    }
  }

  lemma {:induction false} StripPlain(a: string)
    requires '<' !in a
    ensures Stripped(a, false) == a && !EndsInside(a, false)
  {
    if a != "" { StripPlain(a[1..]); }
  }

  lemma {:induction false} StripInside(a: string)
    requires '>' !in a
    ensures Stripped(a, true) == "" && EndsInside(a, true)
  {
    if a != "" { StripInside(a[1..]); }
  }

  function Tag(body: string): string {
    "<" + body + ">"
  }

  lemma {:induction false} StripTag(body: string)
    requires '>' !in body
    ensures Stripped(Tag(body), false) == "" && !EndsInside(Tag(body), false)
  {
    StripInside(body);
    StripJoin("<", body, false);
    StripJoin("<" + body, ">", false);
  }

  // ----- highlighting -----

  datatype Match = Match(start: nat, length: nat)

  /** Ordered, non-overlapping matches inside the text, from `from` on: what `matchAll` yields. */
  predicate Ordered(ms: seq<Match>, from: nat, size: nat) {
    if ms == [] then from <= size
    else from <= ms[0].start && Ordered(ms[1..], ms[0].start + ms[0].length, size)
  }

  lemma {:induction false} OrderedBound(ms: seq<Match>, from: nat, size: nat)
    requires Ordered(ms, from, size)
    ensures from <= size
  {
    if ms != [] { OrderedBound(ms[1..], ms[0].start + ms[0].length, size); }
  }

  /** The escaped text with every match, and nothing else, replaced by its markup: `span` gives it from the token and
      the text after it. */
  function Highlighted(text: string, ms: seq<Match>, cursor: nat, span: (string, string) -> string): string
    requires Ordered(ms, cursor, |text|)
    decreases |ms|
  {
    OrderedBound(ms, cursor, |text|);
    if ms == [] then Escape(text[cursor..])
    else
      var start, end := ms[0].start, ms[0].start + ms[0].length;
      OrderedBound(ms[1..], end, |text|);
      Escape(text[cursor..start]) + (span(text[start..end], text[end..]) + Highlighted(text, ms[1..], end, span))
  }

  function Span(kind: string, token: string): string {
    Tag("span class=\"log-token log-token-" + kind + "\"") + Escape(token) + Tag("/span")
  }

  /** A span of the token's kind, which is chosen from the token and the text after it. */
  function Spans(kind: (string, string) -> string): (string, string) -> string {
    (token, after) => Span(kind(token, after), token)
  }

  /** Markup that ends outside any tag and shows the text. */
  predicate Shows(html: string, text: string) {
    Stripped(html, false) == Escape(text) && !EndsInside(html, false)
  }

  lemma {:induction false} ShowsJoin(a: string, s: string, b: string, t: string)
    requires Shows(a, s) && Shows(b, t)
    ensures Shows(a + b, s + t)
  {
    StripJoin(a, b, false);
    EscapeJoin(s, t);
  }

  lemma {:induction false} ShowsPlain(text: string)
    ensures Shows(Escape(text), text)
  {
    EscapeNoBrackets(text);
    StripPlain(Escape(text));
  }

  lemma {:induction false} ShowsTag(body: string)
    requires '>' !in body
    ensures Shows(Tag(body), "")
  {
    StripTag(body);
  }

  lemma {:induction false} ShowsSpan(kind: string, token: string)
    requires '>' !in kind
    ensures Shows(Span(kind, token), token)
  {
    var open := "span class=\"log-token log-token-" + kind + "\"";
    ShowsTag(open);
    ShowsPlain(token);
    ShowsTag("/span");
    ShowsJoin(Tag(open), "", Escape(token), token);
    ShowsJoin(Tag(open) + Escape(token), "" + token, Tag("/span"), "");
    assert "" + token + "" == token;
  }

  /** Whatever the matches, the markup shows the text. */
  lemma {:induction false} HighlightedShows(text: string, ms: seq<Match>, cursor: nat, span: (string, string) -> string,
                                            html: string)
    requires Ordered(ms, cursor, |text|) && (forall a, b :: Shows(span(a, b), a))
    requires html == Highlighted(text, ms, cursor, span)
    ensures cursor <= |text| && Shows(html, text[cursor..])
    decreases |ms|
  {
    OrderedBound(ms, cursor, |text|);
    if ms == [] {
      ShowsPlain(text[cursor..]);
    } else {
      var start, end := ms[0].start, ms[0].start + ms[0].length;
      var rest := Highlighted(text, ms[1..], end, span);
      HighlightedShows(text, ms[1..], end, span, rest);
      Slices(text, cursor, start, end);
      PieceShows(text[cursor..start], text[start..end], text[end..], span(text[start..end], text[end..]), rest);
    }
  }

  lemma {:induction false} Slices(text: string, cursor: nat, start: nat, end: nat)
    requires cursor <= start <= end <= |text|
    ensures text[cursor..] == text[cursor..start] + (text[start..end] + text[end..])
  {
  }

  lemma {:induction false} PieceShows(gap: string, token: string, tail: string, span: string, rest: string)
    requires Shows(span, token) && Shows(rest, tail)
    ensures Shows(Escape(gap) + (span + rest), gap + (token + tail))
  {
    ShowsPlain(gap);
    ShowsJoin(span, token, rest, tail);
    ShowsJoin(Escape(gap), gap, span + rest, token + tail);
  }

  lemma {:induction false} OrderedNext(ms: seq<Match>, cursor: nat, size: nat, start: nat, end: nat)
    requires ms != [] && start == ms[0].start && end == start + ms[0].length && Ordered(ms, cursor, size)
    ensures cursor <= start <= end <= size && Ordered(ms[1..], end, size)
  {
    OrderedBound(ms[1..], end, size);
  }

  lemma {:induction false} Regroup(html: string, gap: string, span: string, rest: string, goal: string)
    requires html + (gap + (span + rest)) == goal
    ensures html + gap + span + rest == goal
  {
    Associative(html, gap, span + rest);
    Associative(html + gap, span, rest);
  }

  /** The markup the loop builds. */
  method Mark(text: string, ms: seq<Match>, span: (string, string) -> string) returns (html: string)
    requires Ordered(ms, 0, |text|)
    ensures html == Highlighted(text, ms, 0, span)
  {
    html := "";
    var cursor: nat := 0;
    ghost var goal := Highlighted(text, ms, 0, span);
    assert ms[0..] == ms;
    for i := 0 to |ms|
      invariant Ordered(ms[i..], cursor, |text|) && html + Highlighted(text, ms[i..], cursor, span) == goal
    {
      var start, end := ms[i].start, ms[i].start + ms[i].length;
      OrderedNext(ms[i..], cursor, |text|, start, end);
      assert ms[i..][1..] == ms[i + 1..];
      var gap, token := Escape(text[cursor..start]), span(text[start..end], text[end..]);
      Regroup(html, gap, token, Highlighted(text, ms[i + 1..], end, span), goal);
      html := html + gap;
      html := html + token;
      cursor := end;
    }
    html := html + Escape(text[cursor..]);
  }

  // ----- reading the markup back -----

  /** The texts and tags of markup in turn: text, tag, text, tag and so on, beginning and ending with a text. */
  function Pieces(html: string, inTag: bool, piece: string): seq<string> {
    if html == "" then [piece]
    else if html[0] == (if inTag then '>' else '<') then [piece] + Pieces(html[1..], !inTag, "")
    else Pieces(html[1..], inTag, piece + [html[0]])
  }

  lemma {:induction false} PiecesOn(a: string, rest: string, inTag: bool, piece: string)
    requires (if inTag then '>' else '<') !in a
    ensures Pieces(a + rest, inTag, piece) == Pieces(rest, inTag, piece + a)
    decreases |a|
  {
    if a == "" {
      assert a + rest == rest && piece + a == piece;
    } else {
      assert (a + rest)[0] == a[0] && (a + rest)[1..] == a[1..] + rest;
      PiecesOn(a[1..], rest, inTag, piece + [a[0]]);
      assert piece + [a[0]] + a[1..] == piece + a;
    }
  }

  lemma {:induction false} PiecesTurn(rest: string, inTag: bool, piece: string)
    ensures Pieces([if inTag then '>' else '<'] + rest, inTag, piece) == [piece] + Pieces(rest, !inTag, "")
  {
    assert ([if inTag then '>' else '<'] + rest)[1..] == rest;
  }

  lemma {:induction false} PiecesTag(text: string, body: string, rest: string, html: string)
    requires '<' !in text && '>' !in body && html == text + (Tag(body) + rest)
    ensures Pieces(html, false, "") == [text, body] + Pieces(rest, false, "")
  {
    var inner := body + (">" + rest);
    assert Tag(body) + rest == "<" + inner;
    PiecesOn(text, "<" + inner, false, "");
    PiecesTurn(inner, false, "" + text);
    PiecesOn(body, ">" + rest, true, "");
    PiecesTurn(rest, true, "" + body);
    assert "" + text == text && "" + body == body;
    assert [text] + ([body] + Pieces(rest, false, "")) == [text, body] + Pieces(rest, false, "");
  }

  /** The pieces of highlighted text: each gap, then the class of the token's kind around the token. */
  ghost function Marked(text: string, ms: seq<Match>, cursor: nat, kind: (string, string) -> string): seq<string>
    requires Ordered(ms, cursor, |text|)
    decreases |ms|
  {
    OrderedBound(ms, cursor, |text|);
    if ms == [] then [Escape(text[cursor..])]
    else
      var start, end := ms[0].start, ms[0].start + ms[0].length;
      OrderedBound(ms[1..], end, |text|);
      var token := text[start..end];
      [Escape(text[cursor..start]), "span class=\"log-token log-token-" + kind(token, text[end..]) + "\""]
      + ([Escape(token), "/span"] + Marked(text, ms[1..], end, kind))
  }

  lemma {:induction false} PiecesPlain(text: string)
    requires '<' !in text
    ensures Pieces(text, false, "") == [text]
  {
    PiecesOn(text, "", false, "");
    assert text + "" == text && "" + text == text;
  }

  lemma {:induction false} PiecesSpan(gap: string, kind: string, token: string, rest: string, html: string)
    requires '>' !in kind && html == Escape(gap) + (Span(kind, token) + rest)
    ensures Pieces(html, false, "") ==
            [Escape(gap), "span class=\"log-token log-token-" + kind + "\""]
            + ([Escape(token), "/span"] + Pieces(rest, false, ""))
  {
    var open, inner := "span class=\"log-token log-token-" + kind + "\"", Escape(token) + (Tag("/span") + rest);
    EscapeNoBrackets(gap);
    EscapeNoBrackets(token);
    SpanParts(Tag(open), Escape(token), Tag("/span"), rest);
    PiecesTag(Escape(gap), open, inner, html);
    PiecesTag(Escape(token), "/span", rest, inner);
  }

  lemma {:induction false} SpanParts(a: string, b: string, c: string, rest: string)
    ensures a + b + c + rest == a + (b + (c + rest))
  {
  }

  /** Read back, the markup is the text cut at the matches, each token in a span of its kind, and nothing else. */
  lemma {:induction false} HighlightedPieces(text: string, ms: seq<Match>, cursor: nat,
                                             kind: (string, string) -> string, html: string)
    requires Ordered(ms, cursor, |text|) && (forall a, b :: '>' !in kind(a, b))
    requires html == Highlighted(text, ms, cursor, Spans(kind))
    ensures Pieces(html, false, "") == Marked(text, ms, cursor, kind)
    decreases |ms|
  {
    OrderedBound(ms, cursor, |text|);
    if ms == [] {
      EscapeNoBrackets(text[cursor..]);
      PiecesPlain(html);
    } else {
      var start, end := ms[0].start, ms[0].start + ms[0].length;
      OrderedBound(ms[1..], end, |text|);
      var token := text[start..end];
      var rest := Highlighted(text, ms[1..], end, Spans(kind));
      HighlightedPieces(text, ms[1..], end, kind, rest);
      PiecesSpan(text[cursor..start], kind(token, text[end..]), token, rest, html);
    }
  }

  /** `highlightLogText`: `kind` names the class of a token from the token and the text after it. Without its tags and
      unescaped, the markup is the text; read back, it is the text with each token in a span of its kind. */
  method HighlightLogText(text: string, ms: seq<Match>, kind: (string, string) -> string) returns (html: string)
    requires Ordered(ms, 0, |text|) && forall a, b :: '>' !in kind(a, b)
    ensures html == Highlighted(text, ms, 0, Spans(kind)) && Unescape(Stripped(html, false)) == text
    ensures Pieces(html, false, "") == Marked(text, ms, 0, kind)
  {
    html := Mark(text, ms, Spans(kind));
    forall a, b ensures Shows(Spans(kind)(a, b), a) {
      ShowsSpan(kind(a, b), a);
    }
    HighlightedShows(text, ms, 0, Spans(kind), html);
    HighlightedPieces(text, ms, 0, kind, html);
    EscapeRoundTrip(text);
    assert text[0..] == text;
  }
}
