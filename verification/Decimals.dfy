/** Numbers kept as strings of digits: the nanometre-to-millimetre rewrite of
    artifact values and the thousands grouping they are shown with. Both work on
    numerals of any length. */
module Decimals {
  import opened Common

  predicate Digits(s: string) {
    forall i :: 0 <= i < |s| ==> '0' <= s[i] <= '9'
  }

  // ----- decimal numerals -----

  datatype Decimal = Decimal(negative: bool, whole: string, fraction: string)

  predicate Valid(d: Decimal) {
    d.whole != "" && Digits(d.whole) && Digits(d.fraction)
  }

  function Sign(d: Decimal): string {
    if d.negative then "-" else ""
  }

  function Tail(d: Decimal): string {
    if d.fraction != "" then "." + d.fraction else ""
  }

  function Written(d: Decimal): string {
    Sign(d) + d.whole + Tail(d)
  }

  predicate Negative(s: string) {
    s != "" && s[0] == '-'
  }

  function Unsigned(s: string): string {
    if Negative(s) then s[1..] else s
  }

  function PointAt(s: string): (i: nat)
    ensures i <= |s| && (i < |s| ==> s[i] == '.') && forall j :: 0 <= j < i ==> s[j] != '.'
  {
    if s == "" || s[0] == '.' then 0 else 1 + PointAt(s[1..])
  }

  /** The sign, the part before the point and the part after it. */
  function Parse(s: string): Decimal {
    var body := Unsigned(s);
    var i := PointAt(body);
    Decimal(Negative(s), body[..i], if i < |body| then body[i + 1..] else "")
  }

  lemma {:induction false} PointFound(body: string, d: Decimal)
    requires Valid(d) && body == d.whole + Tail(d)
    ensures PointAt(body) == |d.whole| && body[..|d.whole|] == d.whole
    ensures |d.whole| < |body| <==> d.fraction != ""
    ensures d.fraction != "" ==> body[|d.whole| + 1..] == d.fraction
  {
    var i, w, tail := PointAt(body), |d.whole|, Tail(d);
    assert body[..w] == d.whole && body[w..] == tail && (tail != "" ==> tail[0] == '.' && tail[1..] == d.fraction);
    assert i >= w by { assert forall j :: 0 <= j < w ==> body[j] == d.whole[j]; }
    assert i <= w by { assert tail != "" ==> body[w] == tail[0]; }
  }

  lemma {:induction false} Signed(sign: string, body: string, s: string)
    requires s == sign + body && (sign == "" || sign == "-") && !Negative(body)
    ensures Negative(s) == (sign == "-") && Unsigned(s) == body
  {
    if sign == "" { assert s == body; } else { assert s[0] == '-' && s[1..] == body; }
  }

  lemma {:induction false} SignWritten(d: Decimal, body: string, s: string)
    requires Valid(d) && body == d.whole + Tail(d) && s == Written(d)
    ensures Negative(s) == d.negative && Unsigned(s) == body
  {
    Associative(Sign(d), d.whole, Tail(d));
    assert body[0] == d.whole[0];
    Signed(Sign(d), body, s);
  }

  lemma {:induction false} ParseWritten(d: Decimal, s: string)
    requires Valid(d) && s == Written(d)
    ensures Parse(s) == d
  {
    var body := d.whole + Tail(d);
    SignWritten(d, body, s);
    PointFound(body, d);
  }

  // ----- their value -----

  /** `n` with `k` zeros written after it: `n` times ten to the `k`. */
  function Shifted(n: nat, k: nat): (r: nat)
    ensures k == 0 || n == 0 ==> r == n
  {
    if k == 0 then n else 10 * Shifted(n, k - 1)
  }

  function Num(s: string): nat
    requires Digits(s)
  {
    if s == "" then 0 else 10 * Num(s[..|s| - 1]) + (s[|s| - 1] as int - '0' as int)
  }

  /** The value of a numeral, times ten to the `places`. */
  function Value(d: Decimal, places: nat): int
    requires Valid(d) && |d.fraction| <= places
  {
    var size := Shifted(Num(d.whole), places) + Shifted(Num(d.fraction), places - |d.fraction|);
    if d.negative then -size else size
  }

  /** No leading zero but for a lone one, no trailing zero after the point. */
  predicate Canonical(d: Decimal)
    requires Valid(d)
  {
    (d.whole[0] == '0' ==> d.whole == "0") && (d.fraction != "" ==> d.fraction[|d.fraction| - 1] != '0')
  }

  // ----- the rewrite -----

  /** The values that are rewritten: an optional minus and digits. */
  predicate IsInteger(s: string) {
    Unsigned(s) != "" && Digits(Unsigned(s))
  }

  function PadStart(s: string, n: nat): (r: string)
    ensures |r| >= n
    decreases n - |s|
  {
    if |s| >= n then s else PadStart("0" + s, n)
  }

  /** Drops leading zeros that are followed by another digit. */
  function StripLeft(s: string): string {
    if |s| >= 2 && s[0] == '0' then StripLeft(s[1..]) else s
  }

  function StripRight(s: string): string {
    if s != "" && s[|s| - 1] == '0' then StripRight(s[..|s| - 1]) else s
  }

  function Cut(negative: bool, body: string): Decimal {
    var digits := PadStart(body, 7);
    var n := |digits| - 6;
    Decimal(negative, StripLeft(digits[..n]), StripRight(digits[n..]))
  }

  function Millimetres(text: string): string {
    Written(Cut(Negative(text), Unsigned(text)))
  }

  // ----- the rewrite is exact -----

  lemma {:induction false} NumJoin(a: string, b: string)
    requires Digits(a) && Digits(b)
    ensures Digits(a + b) && Num(a + b) == Shifted(Num(a), |b|) + Num(b)
  {
    if b == "" {
      assert a + b == a;
    } else {
      var n := |b| - 1;
      NumJoin(a, b[..n]);
      assert (a + b)[..|a + b| - 1] == a + b[..n];
    }
  }

  lemma {:induction false} PadNum(s: string, n: nat, r: string)
    requires Digits(s) && r == PadStart(s, n)
    ensures Digits(r) && Num(r) == Num(s) && |r| >= n
    decreases n - |s|
  {
    if |s| < n {
      NumJoin("0", s);
      assert Num("0") == 0;
      PadNum("0" + s, n, r);
    }
  }

  lemma {:induction false} StripLeftNum(s: string, r: string)
    requires Digits(s) && s != "" && r == StripLeft(s)
    ensures Digits(r) && r != "" && Num(r) == Num(s) && (r[0] == '0' ==> r == "0")
  {
    if |s| >= 2 && s[0] == '0' {
      assert s == "0" + s[1..] && Num("0") == 0;
      NumJoin("0", s[1..]);
      StripLeftNum(s[1..], r);
    }
  }

  lemma {:induction false} StripRightNum(s: string, r: string)
    requires Digits(s) && r == StripRight(s)
    ensures Digits(r) && |r| <= |s| && Num(s) == Shifted(Num(r), |s| - |r|) && (r != "" ==> r[|r| - 1] != '0')
  {
    if s != "" && s[|s| - 1] == '0' {
      StripRightNum(s[..|s| - 1], r);
    }
  }

  /** Cutting a numeral in two and dropping zeros on both sides loses nothing. */
  lemma {:induction false} HalvesExact(high: string, low: string, d: Decimal, places: nat)
    requires Digits(high) && high != "" && Digits(low) && |low| == places
    requires d.whole == StripLeft(high) && d.fraction == StripRight(low)
    ensures Valid(d) && Canonical(d) && |d.fraction| <= places && Digits(high + low)
    ensures Value(d, places) == if d.negative then 0 - Num(high + low) else Num(high + low)
  {
    StripLeftNum(high, d.whole);
    StripRightNum(low, d.fraction);
    NumJoin(high, low);
  }

  lemma {:induction false} WholeValue(negative: bool, body: string)
    requires body != "" && Digits(body)
    ensures Value(Decimal(negative, body, ""), 0) == if negative then 0 - Num(body) else Num(body)
  {
    assert body + "" == body;
  }

  lemma {:induction false} CutExact(negative: bool, body: string, places: nat, digits: string, d: Decimal)
    requires body != "" && Digits(body) && digits == PadStart(body, places + 1)
    requires d == Decimal(negative, StripLeft(digits[..|digits| - places]), StripRight(digits[|digits| - places..]))
    ensures Valid(d) && Canonical(d) && |d.fraction| <= places
    ensures Value(d, places) == Value(Decimal(negative, body, ""), 0)
  {
    PadNum(body, places + 1, digits);
    var high, low := digits[..|digits| - places], digits[|digits| - places..];
    assert digits == high + low;
    HalvesExact(high, low, d, places);
    WholeValue(negative, body);
  }

  lemma {:induction false} IntegerParse(text: string)
    requires IsInteger(text)
    ensures Parse(text) == Decimal(Negative(text), Unsigned(text), "")
  {
  }

  /** The millimetre numeral is exact: read back, a million times its value is the value of the
      integer it came from. It has no redundant leading zero and no trailing fractional zero. */
  lemma {:induction false} MillimetresExact(text: string, r: Decimal)
    requires IsInteger(text) && r == Parse(Millimetres(text))
    ensures Valid(r) && Canonical(r) && |r.fraction| <= 6
    ensures Valid(Parse(text)) && Parse(text).fraction == "" && Value(r, 6) == Value(Parse(text), 0)
  {
    var negative, body := Negative(text), Unsigned(text);
    var d := Cut(negative, body);
    CutExact(negative, body, 6, PadStart(body, 7), d);
    ParseWritten(d, Written(d));
    IntegerParse(text);
  }

  // ----- thousands grouping -----

  /** A multiple of three. */
  predicate Threes(n: nat) {
    if n < 3 then n == 0 else Threes(n - 3)
  }

  /** A comma before every digit, other than the first, from which a multiple of three digits runs to the end. */
  function Grouped(s: string, first: bool): string {
    if s == "" then "" else Placed(s[0], |s|, first) + Grouped(s[1..], false)
  }

  /** A digit, `n` digits from the end. */
  function Placed(digit: char, n: nat, first: bool): string {
    if !first && Threes(n) then [',', digit] else [digit]
  }

  /** The values that are grouped: an optional minus, four or more digits, and a fraction or nothing. */
  predicate IsLong(value: string) {
    var d := Parse(value);
    Valid(d) && |d.whole| >= 4 && Written(d) == value
  }

  function Shown(value: string): string {
    var d := Parse(value);
    if IsLong(value) then Written(d.(whole := Grouped(d.whole, true))) else value
  }

  function WithoutCommas(s: string): string {
    if s == "" then "" else (if s[0] == ',' then "" else [s[0]]) + WithoutCommas(s[1..])
  }

  lemma {:induction false} CommasJoin(a: string, b: string)
    ensures WithoutCommas(a + b) == WithoutCommas(a) + WithoutCommas(b)
  {
    if a == "" {
      assert a + b == b;
    } else {
      assert (a + b)[1..] == a[1..] + b;
      CommasJoin(a[1..], b);
    }
  }

  lemma {:induction false} NoCommas(s: string)
    requires ',' !in s
    ensures WithoutCommas(s) == s
  {
    if s != "" { NoCommas(s[1..]); }
  }

  lemma {:induction false} CommasThree(a: string, b: string, c: string)
    requires ',' !in a && ',' !in c
    ensures WithoutCommas(a + b + c) == a + WithoutCommas(b) + c
  {
    CommasJoin(a + b, c);
    CommasJoin(a, b);
    NoCommas(a);
    NoCommas(c);
  }

  lemma {:induction false} GroupedRemoved(s: string, first: bool)
    requires Digits(s)
    ensures WithoutCommas(Grouped(s, first)) == s
  {
    if s != "" {
      GroupedRemoved(s[1..], false);
      var rest := Grouped(s[1..], false);
      CommasJoin([s[0]], rest);
      CommasJoin(",", [s[0]] + rest);
      assert "," + ([s[0]] + rest) == "," + [s[0]] + rest;
      assert WithoutCommas(",") == "" && WithoutCommas([s[0]]) == [s[0]];
    }
  }

  /** Removing the commas from what is shown returns the literal. */
  lemma {:induction false} ShownRoundTrip(value: string)
    requires ',' !in value
    ensures WithoutCommas(Shown(value)) == value
  {
    if IsLong(value) {
      var d := Parse(value);
      GroupedRemoved(d.whole, true);
      CommasThree(Sign(d), Grouped(d.whole, true), Tail(d));
    } else {
      NoCommas(value);
    }
  }

  /** The reference reading of grouping: three digits at a time from the right. */
  function ByThrees(s: string): string {
    if |s| <= 3 then s else ByThrees(s[..|s| - 3]) + "," + s[|s| - 3..]
  }

  lemma {:induction false} ThreesAdd(n: nat, m: nat)
    requires Threes(m)
    ensures Threes(n + m) <==> Threes(n)
    decreases m
  {
    if m >= 3 { ThreesAdd(n, m - 3); }
  }

  lemma {:induction false} GroupedJoin(s: string, tail: string, first: bool)
    requires Threes(|tail|)
    ensures Grouped(s + tail, first) == Grouped(s, first) + Grouped(tail, first && s == "")
  {
    if s == "" {
      assert s + tail == tail;
    } else {
      var digit, rest := s[0], s[1..];
      GroupedJoin(rest, tail, false);
      assert (s + tail)[0] == digit && (s + tail)[1..] == rest + tail;
      ThreesAdd(|s|, |tail|);
      assert Placed(digit, |s + tail|, first) == Placed(digit, |s|, first);
      Associative(Placed(digit, |s|, first), Grouped(rest, false), Grouped(tail, false));
    }
  }

  lemma {:induction false} Grouped1(c: char, first: bool)
    ensures Grouped([c], first) == [c]
  {
  }

  lemma {:induction false} Grouped2(b: char, c: char, first: bool)
    ensures Grouped([b, c], first) == [b, c]
  {
    assert [b, c][1..] == [c];
    Grouped1(c, false);
  }

  lemma {:induction false} Grouped3(a: char, b: char, c: char, first: bool)
    ensures Grouped([a, b, c], first) == (if first then "" else ",") + [a, b, c]
  {
    assert [a, b, c][1..] == [b, c] && Threes(0) && Threes(3);
    Grouped2(b, c, false);
  }

  /** Grouping from the left is grouping by threes from the right. */
  lemma {:induction false} GroupedByThrees(s: string)
    ensures Grouped(s, true) == ByThrees(s)
  {
    if |s| > 3 {
      var front, tail := s[..|s| - 3], s[|s| - 3..];
      assert s == front + tail && tail == [tail[0], tail[1], tail[2]];
      GroupedJoin(front, tail, true);
      Grouped3(tail[0], tail[1], tail[2], false);
      GroupedByThrees(front);
    } else if |s| == 3 {
      assert s == [s[0], s[1], s[2]];
      Grouped3(s[0], s[1], s[2], true);
    } else if |s| == 2 {
      assert s == [s[0], s[1]];
      Grouped2(s[0], s[1], true);
    } else if |s| == 1 {
      assert s == [s[0]];
      Grouped1(s[0], true);
    }
  }

  lemma {:induction false} WrittenParts(d: Decimal, whole: string)
    ensures Written(d.(whole := whole)) == Sign(d) + whole + Tail(d)
  {
  }

  /** What is shown for a numeral: its sign, its whole part three digits at a time, and its fraction. */
  lemma {:induction false} ShownMeans(d: Decimal)
    requires Valid(d)
    ensures Shown(Written(d)) == Sign(d) + ByThrees(d.whole) + Tail(d)
  {
    var value := Written(d);
    ParseWritten(d, value);
    GroupedByThrees(d.whole);
    WrittenParts(d, Grouped(d.whole, true));
  }

  /** Any other text is shown as it is. */
  lemma {:induction false} OtherShown(value: string)
    requires forall d :: Valid(d) ==> Written(d) != value
    ensures Shown(value) == value
  {
  }
}
