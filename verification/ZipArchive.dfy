/** A writer of ZIP archives with stored entries, and the round trip: whatever it
    writes, `ZipReader` reads back. */
module ZipArchive {
  import opened Common
  import opened ZipReader

  // ----- records found inside a buffer -----

  function Join(parts: seq<Bytes>): Bytes {
    if parts == [] then [] else parts[0] + Join(parts[1..])
  }

  /** Where each part begins when the first begins at `at`, and where the last ends. */
  function Offsets(parts: seq<Bytes>, at: nat): (r: seq<nat>)
    ensures |r| == |parts| + 1 && r[0] == at
  {
    if parts == [] then [at] else [at] + Offsets(parts[1..], at + |parts[0]|)
  }

  /** A local header, followed by the name, the extra field and the data. */
  ghost predicate IsLocal(l: Bytes, e: Entry) {
    && 30 <= |l| && U32(l, 0) == LOCAL_HEADER
    && |l| == 30 + U16(l, 26) + U16(l, 28) + |e.data|
    && l[|l| - |e.data|..] == e.data
  }

  /** A central header, followed by the name, the extra field and the comment. */
  ghost predicate IsCentral(c: Bytes, e: Entry, local: nat) {
    && 46 <= |c| && U32(c, 0) == CENTRAL_HEADER && U16(c, 10) == 0
    && U32(c, 20) == |e.data| && U32(c, 24) == |e.data| && U32(c, 42) == local
    && U16(c, 28) == |e.name| && |c| == 46 + |e.name| + U16(c, 30) + U16(c, 32)
    && c[46..46 + |e.name|] == e.name
  }

  predicate Found(b: Bytes, at: nat, x: Bytes) {
    at + |x| <= |b| && b[at..at + |x|] == x
  }

  lemma {:induction false} Inside(b: Bytes, pre: Bytes, x: Bytes, post: Bytes)
    requires b == pre + x + post
    ensures Found(b, |pre|, x)
  {
  }

  lemma {:induction false} FoundAt(b: Bytes, at: nat, x: Bytes, i: nat)
    requires Found(b, at, x) && i < |x|
    ensures b[at + i] == x[i]
  {
  }

  lemma {:induction false} Deeper(b: Bytes, at: nat, x: Bytes, k: nat, y: Bytes)
    requires Found(b, at, x) && Found(x, k, y)
    ensures Found(b, at + k, y)
  {
    forall i | 0 <= i < |y| ensures b[at + k + i] == y[i] {
      FoundAt(x, k, y, i);
      FoundAt(b, at, x, k + i);
    }
  }

  lemma {:induction false} LocalFound(b: Bytes, l: Bytes, e: Entry, local: nat)
    requires IsLocal(l, e) && Found(b, local, l)
    ensures HoldsData(b, e.data, local)
  {
    var start := 30 + U16(l, 26) + U16(l, 28);
    assert U32(b, local) == LOCAL_HEADER && U16(b, local + 26) == U16(l, 26) && U16(b, local + 28) == U16(l, 28);
    Deeper(b, local, l, start, e.data);
  }

  lemma {:induction false} CentralNumbers(b: Bytes, c: Bytes, e: Entry, at: nat, local: nat)
    requires IsCentral(c, e, local) && Found(b, at, c)
    ensures at + 46 <= |b| && U32(b, at) == CENTRAL_HEADER && U16(b, at + 10) == 0 && U32(b, at + 42) == local
    ensures U32(b, at + 20) == |e.data| && U32(b, at + 24) == |e.data|
    ensures U16(b, at + 28) == |e.name| && After(b, at) == at + |c|
  {
  }

  lemma {:induction false} NameFound(b: Bytes, at: nat, name: Bytes)
    requires at + 46 <= |b| && U16(b, at + 28) == |name| && Found(b, at + 46, name)
    ensures NameAt(b, at) == name
  {
  }

  lemma {:induction false} CentralFound(b: Bytes, c: Bytes, l: Bytes, e: Entry, at: nat, local: nat)
    requires IsCentral(c, e, local) && IsLocal(l, e) && Found(b, at, c) && Found(b, local, l)
    ensures HoldsEntry(b, e, at, at + |c|)
  {
    CentralNumbers(b, c, e, at, local);
    assert Found(b, at + 46, e.name) by { Deeper(b, at, c, 46, e.name); }
    NameFound(b, at, e.name);
    LocalFound(b, l, e, local);
  }

  /** Every part of a joined list is found at its offset. */
  lemma {:induction false} JoinFound(b: Bytes, parts: seq<Bytes>, pre: Bytes, post: Bytes, offsets: seq<nat>, k: nat)
    requires b == pre + Join(parts) + post && offsets == Offsets(parts, |pre|) && k < |parts|
    ensures Found(b, offsets[k], parts[k]) && offsets[k + 1] == offsets[k] + |parts[k]|
  {
    var first, rest := parts[0], Join(parts[1..]);
    if k == 0 {
      assert b == pre + first + (rest + post);
      Inside(b, pre, first, rest + post);
    } else {
      assert b == (pre + first) + rest + post;
      JoinFound(b, parts[1..], pre + first, post, offsets[1..], k - 1);
    }
  }

  // ----- the writer -----

  /** An entry with the header fields a writer is free to choose. */
  datatype Item = Item(entry: Entry, stamp: nat, crc: nat, localExtra: Bytes, centralExtra: Bytes, comment: Bytes)

  predicate ItemFits(m: Item) {
    && m.stamp < 0x1_0000_0000 && m.crc < 0x1_0000_0000 && |m.entry.data| < 0x1_0000_0000 && |m.entry.name| < 0x1_0000
    && |m.localExtra| < 0x1_0000 && |m.centralExtra| < 0x1_0000 && |m.comment| < 0x1_0000
  }

  function LE16(n: nat): (r: Bytes)
    requires n < 0x1_0000
    ensures |r| == 2 && U16(r, 0) == n
  {
    [n % 256, n / 256]
  }

  function LE32(n: nat): (r: Bytes)
    requires n < 0x1_0000_0000
    ensures |r| == 4 && U32(r, 0) == n
  {
    LE16(n % 65536) + LE16(n / 65536)
  }

  function LocalHead(m: Item): (r: Bytes)
    requires ItemFits(m)
    ensures |r| == 30 && U32(r, 0) == LOCAL_HEADER && U16(r, 26) == |m.entry.name| && U16(r, 28) == |m.localExtra|
  {
    [0x50, 0x4b, 0x03, 0x04] + LE16(20) + LE16(0) + LE16(0) + LE32(m.stamp) + LE32(m.crc)
    + LE32(|m.entry.data|) + LE32(|m.entry.data|)
    + LE16(|m.entry.name|) + LE16(|m.localExtra|)
  }

  function CentralHead(m: Item, offset: nat): (r: Bytes)
    requires ItemFits(m) && offset < 0x1_0000_0000
    ensures |r| == 46 && U32(r, 0) == CENTRAL_HEADER && U16(r, 10) == 0
    ensures U32(r, 20) == |m.entry.data| && U32(r, 24) == |m.entry.data|
    ensures U16(r, 28) == |m.entry.name| && U16(r, 30) == |m.centralExtra| && U16(r, 32) == |m.comment|
    ensures U32(r, 42) == offset
  {
    ([0x50, 0x4b, 0x01, 0x02] + LE16(20) + LE16(20) + LE16(0) + LE16(0) + LE32(m.stamp) + LE32(m.crc))
    + (LE32(|m.entry.data|) + LE32(|m.entry.data|) + LE16(|m.entry.name|) + LE16(|m.centralExtra|) + LE16(|m.comment|))
    + (LE16(0) + LE16(0) + LE32(0) + LE32(offset))
  }

  function EndRecord(count: nat, size: nat, offset: nat): (r: Bytes)
    requires count < 0x1_0000 && size < 0x1_0000_0000 && offset < 0x1_0000_0000
    ensures |r| == 22 && U32(r, 0) == END_RECORD && U16(r, 10) == count && U32(r, 16) == offset
  {
    [0x50, 0x4b, 0x05, 0x06] + LE16(0) + LE16(0) + LE16(count) + LE16(count) + LE32(size) + LE32(offset) + LE16(0)
  }

  lemma {:induction false} LocalWritten(h: Bytes, name: Bytes, extra: Bytes, e: Entry, l: Bytes)
    requires |h| == 30 && U32(h, 0) == LOCAL_HEADER && U16(h, 26) == |name| && U16(h, 28) == |extra|
    requires l == h + name + extra + e.data
    ensures IsLocal(l, e)
  {
  }

  lemma {:induction false} CentralWritten(h: Bytes, e: Entry, extra: Bytes, comment: Bytes, offset: nat, c: Bytes)
    requires |h| == 46 && U32(h, 0) == CENTRAL_HEADER && U16(h, 10) == 0 && U32(h, 20) == |e.data|
    requires U32(h, 24) == |e.data|
    requires U16(h, 28) == |e.name| && U16(h, 30) == |extra| && U16(h, 32) == |comment| && U32(h, 42) == offset
    requires c == h + e.name + extra + comment
    ensures IsCentral(c, e, offset)
  {
  }

  function Local(m: Item): (l: Bytes)
    requires ItemFits(m)
    ensures IsLocal(l, m.entry)
  {
    var h := LocalHead(m);
    LocalWritten(h, m.entry.name, m.localExtra, m.entry, h + m.entry.name + m.localExtra + m.entry.data);
    h + m.entry.name + m.localExtra + m.entry.data
  }

  function Central(m: Item, offset: nat): (c: Bytes)
    requires ItemFits(m) && offset < 0x1_0000_0000
    ensures IsCentral(c, m.entry, offset)
  {
    var h := CentralHead(m, offset);
    CentralWritten(h, m.entry, m.centralExtra, m.comment, offset, h + m.entry.name + m.centralExtra + m.comment);
    h + m.entry.name + m.centralExtra + m.comment
  }

  function Locals(ms: seq<Item>): (ls: seq<Bytes>)
    requires forall m :: m in ms ==> ItemFits(m)
    ensures |ls| == |ms|
  {
    if ms == [] then [] else [Local(ms[0])] + Locals(ms[1..])
  }

  lemma {:induction false} LocalsAt(ms: seq<Item>, k: nat)
    requires (forall m :: m in ms ==> ItemFits(m)) && k < |ms|
    ensures IsLocal(Locals(ms)[k], ms[k].entry)
  {
    if k > 0 { LocalsAt(ms[1..], k - 1); }
  }

  predicate Small(offsets: seq<nat>) {
    forall i :: 0 <= i < |offsets| ==> offsets[i] < 0x1_0000_0000
  }

  function Centrals(ms: seq<Item>, offsets: seq<nat>): (cs: seq<Bytes>)
    requires forall m :: m in ms ==> ItemFits(m)
    requires |offsets| == |ms| + 1 && Small(offsets)
    ensures |cs| == |ms|
  {
    if ms == [] then [] else [Central(ms[0], offsets[0])] + Centrals(ms[1..], offsets[1..])
  }

  lemma {:induction false} CentralsAt(ms: seq<Item>, offsets: seq<nat>, cs: seq<Bytes>, k: nat)
    requires (forall m :: m in ms ==> ItemFits(m)) && |offsets| == |ms| + 1 && Small(offsets) && k < |ms|
    requires cs == Centrals(ms, offsets)
    ensures |cs| == |ms| && IsCentral(cs[k], ms[k].entry, offsets[k])
  {
    var ms', offsets' := ms[1..], offsets[1..];
    assert cs == [Central(ms[0], offsets[0])] + Centrals(ms', offsets');
    if k > 0 {
      CentralsAt(ms', offsets', cs[1..], k - 1);
      assert cs[k] == cs[1..][k - 1] && ms[k] == ms'[k - 1] && offsets[k] == offsets'[k - 1];
    }
  }

  /** What the 16- and 32-bit fields of an archive can hold. */
  predicate Fits(ms: seq<Item>) {
    && |ms| < 0x1_0000 && (forall m :: m in ms ==> ItemFits(m))
    && Small(Offsets(Locals(ms), 0))
    && |Join(Locals(ms))| < 0x1_0000_0000 && |Join(Centrals(ms, Offsets(Locals(ms), 0)))| < 0x1_0000_0000
  }

  function Archive(ms: seq<Item>): Bytes
    requires Fits(ms)
  {
    var locals := Join(Locals(ms));
    var centrals := Join(Centrals(ms, Offsets(Locals(ms), 0)));
    locals + centrals + EndRecord(|ms|, |centrals|, |locals|)
  }

  function Entries(ms: seq<Item>): (es: seq<Entry>)
    ensures |es| == |ms| && forall i :: 0 <= i < |ms| ==> es[i] == ms[i].entry
  {
    if ms == [] then [] else [ms[0].entry] + Entries(ms[1..])
  }

  lemma {:induction false} EndFound(b: Bytes, front: Bytes, end: Bytes)
    requires b == front + end && |end| == 22
    ensures |b| >= 22 && U32(b, |b| - 22) == U32(end, 0) && U16(b, |b| - 12) == U16(end, 10)
    ensures U32(b, |b| - 6) == U32(end, 16)
  {
  }

  lemma {:induction false} PartsFound(b: Bytes, ls: seq<Bytes>, cs: seq<Bytes>, end: Bytes, offsets: seq<nat>,
                                      places: seq<nat>, k: nat)
    requires b == Join(ls) + Join(cs) + end && offsets == Offsets(ls, 0) && places == Offsets(cs, |Join(ls)|)
    requires k < |ls| == |cs|
    ensures Found(b, offsets[k], ls[k]) && Found(b, places[k], cs[k]) && places[k + 1] == places[k] + |cs[k]|
  {
    var l, c := Join(ls), Join(cs);
    JoinFound(b, cs, l, end, places, k);
    assert b == [] + l + (c + end);
    JoinFound(b, ls, [], c + end, offsets, k);
  }

  lemma {:induction false} Assembled(b: Bytes, es: seq<Entry>, ls: seq<Bytes>, cs: seq<Bytes>, offsets: seq<nat>,
                                     end: Bytes) returns (places: seq<nat>)
    requires |es| == |ls| == |cs| && offsets == Offsets(ls, 0)
    requires forall k :: 0 <= k < |es| ==> IsLocal(ls[k], es[k]) && IsCentral(cs[k], es[k], offsets[k])
    requires b == Join(ls) + Join(cs) + end
    requires |end| == 22 && U32(end, 0) == END_RECORD && U16(end, 10) == |es| && U32(end, 16) == |Join(ls)|
    ensures IsArchive(b, es, places)
  {
    var l, c := Join(ls), Join(cs);
    places := Offsets(cs, |l|);
    EndFound(b, l + c, end);
    forall k | 0 <= k < |es| ensures HoldsEntry(b, es[k], places[k], places[k + 1]) {
      PartsFound(b, ls, cs, end, offsets, places, k);
      CentralFound(b, cs[k], ls[k], es[k], places[k], offsets[k]);
    }
  }

  /** Writing and reading back: the bytes of the first entry with the wanted name. */
  method RoundTrip(ms: seq<Item>, wanted: string, decode: Bytes -> string, inflate: Bytes -> Option<Bytes>)
    returns (r: Outcome)
    requires Fits(ms)
    ensures r == Expected(Entries(ms), wanted, decode)
  {
    var b := Archive(ms);
    ghost var ls, offsets := Locals(ms), Offsets(Locals(ms), 0);
    ghost var cs := Centrals(ms, offsets);
    forall k | 0 <= k < |ms| ensures IsLocal(ls[k], ms[k].entry) && IsCentral(cs[k], ms[k].entry, offsets[k]) {
      LocalsAt(ms, k);
      CentralsAt(ms, offsets, cs, k);
    }
    ghost var places := Assembled(b, Entries(ms), ls, cs, offsets, EndRecord(|ms|, |Join(cs)|, |Join(ls)|));
    r := ReadArchive(b, wanted, decode, inflate, Entries(ms), places);
  }

  // ----- an entry that understates its size -----

  /** A local header without a name, and a central header that declares size 0 for the `packed` bytes behind it. */
  function BareLocal(): (r: Bytes)
    ensures |r| == 30 && U32(r, 0) == LOCAL_HEADER && U16(r, 26) == 0 && U16(r, 28) == 0
  {
    [0x50, 0x4b, 0x03, 0x04] + Zeros(26)
  }

  function Zeros(n: nat): (r: Bytes)
    ensures |r| == n && forall i :: 0 <= i < n ==> r[i] == 0
  {
    seq(n, _ => 0)
  }

  function UnderstatedCentral(packed: nat, name: Bytes): (r: Bytes)
    requires packed < 0x1_0000_0000 && |name| < 0x1_0000
    ensures |r| == 46 + |name| && U32(r, 0) == CENTRAL_HEADER && U16(r, 10) == 0 && U32(r, 20) == packed
    ensures U32(r, 24) == 0 && U16(r, 28) == |name| && U32(r, 42) == 0 && r[46..] == name
  {
    ([0x50, 0x4b, 0x01, 0x02] + Zeros(16)) + (LE32(packed) + Zeros(4) + LE16(|name|) + Zeros(16)) + name
  }

  /** An archive of one stored entry, whose directory declares that it is empty. */
  function Understated(name: Bytes, data: Bytes): Bytes
    requires |name| < 0x1_0000 && 30 + |data| < 0x1_0000_0000
  {
    BareLocal() + data + UnderstatedCentral(|data|, name) + EndRecord(1, 46 + |name|, 30 + |data|)
  }

  lemma {:induction false} FourParts(b: Bytes, l: Bytes, data: Bytes, c: Bytes, end: Bytes)
    requires b == l + data + c + end
    ensures Found(b, 0, l) && Found(b, |l|, data) && Found(b, |l| + |data|, c)
  {
    assert b == [] + l + (data + c + end) && b == l + data + (c + end);
    Inside(b, [], l, data + c + end);
    Inside(b, l, data, c + end);
    Inside(b, l + data, c, end);
  }

  lemma {:induction false} UnderstatedNumbers(b: Bytes, at: nat, packed: nat, name: Bytes, c: Bytes)
    requires |name| < 0x1_0000 && packed < 0x1_0000_0000 && c == UnderstatedCentral(packed, name) && Found(b, at, c)
    ensures at + 46 <= |b| && U32(b, at) == CENTRAL_HEADER && U16(b, at + 10) == 0 && U32(b, at + 42) == 0
    ensures U32(b, at + 20) == packed && U32(b, at + 24) == 0 && NameAt(b, at) == name
  {
    assert Found(c, 46, name);
    Deeper(b, at, c, 46, name);
    assert U16(b, at + 28) == U16(c, 28);
    NameFound(b, at, name);
  }

  lemma {:induction false} BareData(b: Bytes, data: Bytes, l: Bytes)
    requires l == BareLocal() && Found(b, 0, l) && Found(b, 30, data)
    ensures HoldsData(b, data, 0)
  {
  }

  lemma {:induction false} UnderstatedFetched(name: Bytes, data: Bytes, b: Bytes, c: Bytes, l: Bytes, at: nat,
                                              inflate: Bytes -> Option<Bytes>)
    requires |name| < 0x1_0000 && |data| < 0x1_0000_0000 && c == UnderstatedCentral(|data|, name) && l == BareLocal()
    requires Found(b, 0, l) && Found(b, 30, data) && Found(b, at, c)
    ensures at + 46 <= |b| && U32(b, at) == CENTRAL_HEADER && NameAt(b, at) == name
    ensures Fetch(b, at, inflate) == Content(data)
  {
    UnderstatedNumbers(b, at, |data|, name, c);
    BareData(b, data, l);
  }

  lemma {:induction false} EndIsLast(b: Bytes, front: Bytes, end: Bytes, at: nat)
    requires b == front + end && |end| == 22 && U32(end, 0) == END_RECORD && U16(end, 10) == 1 && U32(end, 16) == at
    ensures LastEnd(b, |b| - 22) && U16(b, |b| - 12) == 1 && U32(b, |b| - 6) == at
  {
    EndFound(b, front, end);
  }

  lemma {:induction false} UnderstatedHolds(name: Bytes, data: Bytes, b: Bytes, at: nat,
                                            inflate: Bytes -> Option<Bytes>)
    requires |name| < 0x1_0000 && 30 + |data| == at < 0x1_0000_0000 && b == Understated(name, data)
    ensures LastEnd(b, |b| - 22) && U16(b, |b| - 12) == 1 && U32(b, |b| - 6) == at && at + 46 <= |b|
    ensures U32(b, at) == CENTRAL_HEADER && NameAt(b, at) == name && Fetch(b, at, inflate) == Content(data)
  {
    var l, c, end := BareLocal(), UnderstatedCentral(|data|, name), EndRecord(1, 46 + |name|, at);
    var front := l + data + c;
    EndIsLast(b, front, end, at);
    FourParts(b, l, data, c, end);
    UnderstatedFetched(name, data, b, c, l, at, inflate);
  }

  method ReadOnly(b: Bytes, at: nat, wanted: string, decode: Bytes -> string, inflate: Bytes -> Option<Bytes>)
    returns (r: Outcome)
    requires LastEnd(b, |b| - 22) && U16(b, |b| - 12) == 1 && U32(b, |b| - 6) == at && at + 46 <= |b|
    requires U32(b, at) == CENTRAL_HEADER && decode(NameAt(b, at)) == wanted
    ensures r == Fetch(b, at, inflate)
  {
    r := OfficeEntry(b, wanted, decode, inflate);
  }

  /** Whatever its length, a stored entry that is declared empty is shown in full: the limit of 4 MiB does not hold for
      it. */
  method ShowUnderstated(name: Bytes, data: Bytes, decode: Bytes -> string, inflate: Bytes -> Option<Bytes>)
    returns (r: Outcome)
    requires |name| < 0x1_0000 && 30 + |data| < 0x1_0000_0000
    ensures r == Content(data)
  {
    var b := Understated(name, data);
    UnderstatedHolds(name, data, b, 30 + |data|, inflate);
    r := ReadOnly(b, 30 + |data|, decode(name), decode, inflate);
  }

  /** Such an input exists: one byte over the limit. */
  lemma {:induction false} LimitExceeded(inflate: Bytes -> Option<Bytes>)
    ensures exists b: Bytes, at: nat :: Exceeds(b, at, inflate)
  {
    var data := Zeros(MAX_CONTENT + 1);
    var b, at := Understated([], data), 30 + |data|;
    UnderstatedHolds([], data, b, at, inflate);
    assert Exceeds(b, at, inflate);
  }

  ghost predicate Exceeds(b: Bytes, at: nat, inflate: Bytes -> Option<Bytes>) {
    at + 46 <= |b| && var r := Fetch(b, at, inflate); r.Content? && |r.data| > MAX_CONTENT
  }
}
