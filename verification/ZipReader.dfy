/** The ZIP reader that previews office documents: it finds the end-of-central-
    directory record, walks the central directory and returns the content of the
    first entry with the wanted name. Record layouts are those of sections 4.3.7,
    4.3.12 and 4.3.16 of the PKWARE APPNOTE. Text decoding and DEFLATE are
    parameters. */
module ZipReader {
  import opened Common

  datatype Reason = NoDirectory | TooManyEntries | TooLarge | Incomplete | Unsupported | Corrupt | NotFound

  datatype Outcome = Content(data: Bytes) | Failed(reason: Reason)

  const END_RECORD := 0x06054b50
  const CENTRAL_HEADER := 0x02014b50
  const LOCAL_HEADER := 0x04034b50
  const MAX_CONTENT := 4 * 1048576
  const MAX_ENTRIES := 4096

  // ----- reading numbers -----

  function U16(b: Bytes, i: nat): (n: nat)
    requires i + 2 <= |b|
    ensures n < 0x1_0000
  {
    b[i] as int + 256 * (b[i + 1] as int)
  }

  function U32(b: Bytes, i: nat): (n: nat)
    requires i + 4 <= |b|
    ensures n < 0x1_0000_0000
  {
    b[i] as int + 256 * (b[i + 1] as int) + 65536 * (b[i + 2] as int) + 16777216 * (b[i + 3] as int)
  }

  /** The three signatures, byte for byte: "PK" and a record type. */
  lemma {:induction false} SignatureBytes(b: Bytes, i: nat)
    requires i + 4 <= |b|
    ensures U32(b, i) == LOCAL_HEADER <==> b[i..i + 4] == [0x50, 0x4b, 0x03, 0x04]
    ensures U32(b, i) == CENTRAL_HEADER <==> b[i..i + 4] == [0x50, 0x4b, 0x01, 0x02]
    ensures U32(b, i) == END_RECORD <==> b[i..i + 4] == [0x50, 0x4b, 0x05, 0x06]
  {
    assert b[i..i + 4] == [b[i], b[i + 1], b[i + 2], b[i + 3]];
  }

  /** `subarray`: both ends are clamped to the buffer. */
  function Sub(b: Bytes, lo: nat, hi: nat): Bytes {
    if lo >= |b| || hi <= lo then [] else if hi > |b| then b[lo..] else b[lo..hi]
  }

  // ----- the search, as a function of the buffer -----

  predicate EndRecordAt(b: Bytes, i: int) {
    0 <= i && |b| - 65557 <= i && i + 22 <= |b| && U32(b, i) == END_RECORD
  }

  /** The content an entry's headers point at. */
  function Fetch(b: Bytes, at: nat, inflate: Bytes -> Option<Bytes>): Outcome
    requires at + 46 <= |b|
  {
    var packed, local := U32(b, at + 20), U32(b, at + 42);
    if U32(b, at + 24) > MAX_CONTENT || local + 30 > |b| || U32(b, local) != LOCAL_HEADER then Failed(TooLarge)
    else
      var start := local + 30 + U16(b, local + 26) + U16(b, local + 28);
      if start + packed > |b| then Failed(Incomplete)
      else if U16(b, at + 10) == 8 then
        var data := inflate(b[start..start + packed]);
        if data.None? then Failed(Corrupt) else if |data.value| > MAX_CONTENT then Failed(TooLarge)
        else Content(data.value)
      else if U16(b, at + 10) != 0 then Failed(Unsupported)
      else Content(b[start..start + packed])
  }

  function NameAt(b: Bytes, at: nat): Bytes
    requires at + 46 <= |b|
  {
    Sub(b, at + 46, at + 46 + U16(b, at + 28))
  }

  function After(b: Bytes, at: nat): nat
    requires at + 46 <= |b|
  {
    at + 46 + U16(b, at + 28) + U16(b, at + 30) + U16(b, at + 32)
  }

  function Search(b: Bytes, at: nat, left: nat, wanted: string, decode: Bytes -> string,
                  inflate: Bytes -> Option<Bytes>): Outcome
    decreases left
  {
    if left == 0 || at + 46 > |b| || U32(b, at) != CENTRAL_HEADER then Failed(NotFound)
    else if decode(NameAt(b, at)) == wanted then Fetch(b, at, inflate)
    else Search(b, After(b, at), left - 1, wanted, decode, inflate)
  }

  // ----- the reader -----

  /** The last end record in the searched tail of the file. */
  method FindEnd(b: Bytes) returns (end: int)
    ensures end >= 0 ==> EndRecordAt(b, end) && forall j :: end < j ==> !EndRecordAt(b, j)
    ensures end < 0 ==> forall j :: !EndRecordAt(b, j)
  {
    end := -1;
    var i := |b| - 22;
    var lowest := if |b| > 65557 then |b| - 65557 else 0;
    while i >= lowest
      invariant lowest - 1 <= i || i < 0
      invariant end == -1 && i + 22 <= |b| && forall j :: i < j ==> !EndRecordAt(b, j)
      decreases i
    {
      if U32(b, i) == END_RECORD {
        end := i;
        break;
      }
      i := i - 1;
    }
  }

  /** The headers locate `n` bytes at `start`: the declared size is allowed, the local header is one, and the bytes
      that follow it, its name and its extra field are all there. */
  ghost predicate Locates(b: Bytes, at: nat, start: nat, n: nat)
    requires at + 46 <= |b|
  {
    && U32(b, at + 24) <= MAX_CONTENT && n == U32(b, at + 20)
    && var local := U32(b, at + 42);
       && local + 30 <= |b| && U32(b, local) == LOCAL_HEADER
       && start == local + 30 + U16(b, local + 26) + U16(b, local + 28) && start + n <= |b|
  }

  /** The entry whose central header is at `at`: exactly the located bytes of a stored entry, exactly what a
      compressed one inflates to if that is not too long, and no content otherwise. The content is within the preview
      limit unless a stored entry packs more than it declares. */
  method Extract(b: Bytes, at: nat, inflate: Bytes -> Option<Bytes>) returns (r: Outcome)
    requires at + 46 <= |b|
    ensures r == Fetch(b, at, inflate)
    ensures r.Content? ==> U16(b, at + 10) in {0, 8} && exists start: nat, n: nat :: Locates(b, at, start, n)
    ensures forall start: nat, n: nat :: Locates(b, at, start, n) && U16(b, at + 10) == 0 ==>
              r == Content(b[start..start + n])
    ensures forall start: nat, n: nat :: Locates(b, at, start, n) && U16(b, at + 10) == 8 ==>
              var data := inflate(b[start..start + n]);
              (r.Content? <==> data.Some? && |data.value| <= 4194304) && (r.Content? ==> r.data == data.value)
    ensures r.Content? ==> (|r.data| <= 4194304 <==> U16(b, at + 10) == 8 || U32(b, at + 20) <= 4194304)
  {
    r := FetchEntry(b, at, inflate);
    FetchLocates(b, at, inflate, r);
    forall start: nat, n: nat | Locates(b, at, start, n)
      ensures U16(b, at + 10) == 0 ==> r == Content(b[start..start + n])
      ensures U16(b, at + 10) == 8 ==> r == Inflated(inflate(b[start..start + n]))
    {
      LocatedFetched(b, at, start, n, inflate);
    }
  }

  function Inflated(data: Option<Bytes>): Outcome {
    if data.None? then Failed(Corrupt) else if |data.value| > MAX_CONTENT then Failed(TooLarge) else Content(data.value)
  }

  lemma {:induction false} LocatedFetched(b: Bytes, at: nat, start: nat, n: nat, inflate: Bytes -> Option<Bytes>)
    requires at + 46 <= |b| && Locates(b, at, start, n)
    ensures U16(b, at + 10) == 0 ==> Fetch(b, at, inflate) == Content(b[start..start + n])
    ensures U16(b, at + 10) == 8 ==> Fetch(b, at, inflate) == Inflated(inflate(b[start..start + n]))
  {
  }

  lemma {:induction false} FetchLocates(b: Bytes, at: nat, inflate: Bytes -> Option<Bytes>, r: Outcome)
    requires at + 46 <= |b| && r == Fetch(b, at, inflate)
    ensures r.Content? ==> U16(b, at + 10) in {0, 8} && exists start: nat, n: nat :: Locates(b, at, start, n)
    ensures r.Content? ==> (|r.data| <= MAX_CONTENT <==> U16(b, at + 10) == 8 || U32(b, at + 20) <= MAX_CONTENT)
  {
    if r.Content? {
      var local := U32(b, at + 42);
      assert Locates(b, at, local + 30 + U16(b, local + 26) + U16(b, local + 28), U32(b, at + 20));
    }
  }

  method FetchEntry(b: Bytes, at: nat, inflate: Bytes -> Option<Bytes>) returns (r: Outcome)
    requires at + 46 <= |b|
    ensures r == Fetch(b, at, inflate)
  {
    var compression, packed, size, local := U16(b, at + 10), U32(b, at + 20), U32(b, at + 24), U32(b, at + 42);
    if size > MAX_CONTENT || local + 30 > |b| || U32(b, local) != LOCAL_HEADER { return Failed(TooLarge); }
    var start := local + 30 + U16(b, local + 26) + U16(b, local + 28);
    if start + packed > |b| { return Failed(Incomplete); }
    var data := b[start..start + packed];
    if compression == 8 {
      var inflated := inflate(data);
      if inflated.None? { return Failed(Corrupt); }
      if |inflated.value| > MAX_CONTENT { return Failed(TooLarge); }
      data := inflated.value;
    } else if compression != 0 {
      return Failed(Unsupported);
    }
    return Content(data);
  }

  /** The last end record, if the file has one where it is looked for. */
  ghost predicate LastEnd(b: Bytes, end: int) {
    EndRecordAt(b, end) && forall j :: end < j ==> !EndRecordAt(b, j)
  }

  /** The directory is searched header by header. */
  method SearchEntries(b: Bytes, first: nat, count: nat, wanted: string, decode: Bytes -> string,
                       inflate: Bytes -> Option<Bytes>)
    returns (r: Outcome)
    ensures r == Search(b, first, count, wanted, decode, inflate)
  {
    var at: nat := first;
    ghost var goal := Search(b, first, count, wanted, decode, inflate);
    for i := 0 to count
      invariant Search(b, at, count - i, wanted, decode, inflate) == goal
    {
      if at + 46 > |b| || U32(b, at) != CENTRAL_HEADER { break; }
      var here, name := at, decode(NameAt(b, at));
      at := After(b, at);
      if name != wanted { continue; }
      r := Extract(b, here, inflate);
      return;
    }
    return Failed(NotFound);
  }

  /** For every buffer each read is in range, and the result is the search of the directory the
      last end record names. */
  method OfficeEntry(b: Bytes, wanted: string, decode: Bytes -> string, inflate: Bytes -> Option<Bytes>)
    returns (r: Outcome)
    ensures (forall j :: !EndRecordAt(b, j)) ==> r == Failed(NoDirectory)
    ensures forall end :: LastEnd(b, end) ==>
      r == if U16(b, end + 10) > 4096 then Failed(TooManyEntries)
           else Search(b, U32(b, end + 16), U16(b, end + 10), wanted, decode, inflate)
  {
    var end := FindEnd(b);
    if end < 0 { return Failed(NoDirectory); }
    assert forall e :: LastEnd(b, e) ==> e == end;
    var count := U16(b, end + 10);
    if count > MAX_ENTRIES { return Failed(TooManyEntries); }
    r := SearchEntries(b, U32(b, end + 16), count, wanted, decode, inflate);
  }

  // ----- archives -----

  datatype Entry = Entry(name: Bytes, data: Bytes)

  /** The headers for a stored entry: a central header at `at`, its successor at
      `next`, and a local header somewhere with the data after it. */
  ghost predicate HoldsEntry(b: Bytes, e: Entry, at: nat, next: nat) {
    && at + 46 <= |b| && U32(b, at) == CENTRAL_HEADER && U16(b, at + 10) == 0
    && U32(b, at + 20) == |e.data| && U32(b, at + 24) == |e.data|
    && NameAt(b, at) == e.name && After(b, at) == next && HoldsData(b, e.data, U32(b, at + 42))
  }

  /** The data stand behind the local header at `local`. */
  ghost predicate HoldsData(b: Bytes, data: Bytes, local: nat) {
    && local + 30 <= |b| && U32(b, local) == LOCAL_HEADER
    && var start := local + 30 + U16(b, local + 26) + U16(b, local + 28);
       start + |data| <= |b| && b[start..start + |data|] == data
  }

  /** A ZIP archive of stored entries without an archive comment: the end record is the last
      22 bytes. `places` lists where the central headers stand, and where they end. */
  ghost predicate IsArchive(b: Bytes, es: seq<Entry>, places: seq<nat>) {
    && 22 <= |b| && U32(b, |b| - 22) == END_RECORD && U16(b, |b| - 12) == |es|
    && |places| == |es| + 1 && U32(b, |b| - 6) == places[0]
    && forall k :: 0 <= k < |es| ==> HoldsEntry(b, es[k], places[k], places[k + 1])
  }

  function FirstNamed(es: seq<Entry>, wanted: string, decode: Bytes -> string): (k: nat)
    ensures k <= |es| && (k < |es| ==> decode(es[k].name) == wanted)
    ensures forall j :: 0 <= j < k ==> decode(es[j].name) != wanted
  {
    if es == [] || decode(es[0].name) == wanted then 0 else 1 + FirstNamed(es[1..], wanted, decode)
  }

  function Expected(es: seq<Entry>, wanted: string, decode: Bytes -> string): Outcome {
    var k := FirstNamed(es, wanted, decode);
    if |es| > MAX_ENTRIES then Failed(TooManyEntries)
    else if k == |es| then Failed(NotFound)
    else if |es[k].data| > MAX_CONTENT then Failed(TooLarge)
    else Content(es[k].data)
  }

  lemma {:induction false} StoredFetched(b: Bytes, e: Entry, at: nat, next: nat, inflate: Bytes -> Option<Bytes>)
    requires HoldsEntry(b, e, at, next)
    ensures Fetch(b, at, inflate) == if |e.data| > MAX_CONTENT then Failed(TooLarge) else Content(e.data)
  {
  }

  lemma {:induction false} SearchStep(b: Bytes, e: Entry, at: nat, next: nat, left: nat, wanted: string,
                                      decode: Bytes -> string, inflate: Bytes -> Option<Bytes>, r: Outcome)
    requires HoldsEntry(b, e, at, next) && left > 0 && r == Search(b, at, left, wanted, decode, inflate)
    ensures decode(e.name) == wanted ==> r == if |e.data| > MAX_CONTENT then Failed(TooLarge) else Content(e.data)
    ensures decode(e.name) != wanted ==> r == Search(b, next, left - 1, wanted, decode, inflate)
  {
    StoredFetched(b, e, at, next, inflate);
  }

  lemma {:induction false} SearchFindsFirst(b: Bytes, es: seq<Entry>, places: seq<nat>, i: nat, wanted: string,
                                            decode: Bytes -> string, inflate: Bytes -> Option<Bytes>, r: Outcome)
    requires IsArchive(b, es, places) && |es| <= MAX_ENTRIES && i <= FirstNamed(es, wanted, decode)
    requires r == Search(b, places[i], |es| - i, wanted, decode, inflate)
    ensures r == Expected(es, wanted, decode)
    decreases |es| - i
  {
    if i < |es| {
      SearchStep(b, es[i], places[i], places[i + 1], |es| - i, wanted, decode, inflate, r);
      if i < FirstNamed(es, wanted, decode) {
        SearchFindsFirst(b, es, places, i + 1, wanted, decode, inflate, r);
      }
    }
  }

  /** Reading any archive gives exactly the bytes of the first entry with the wanted name. */
  method ReadArchive(b: Bytes, wanted: string, decode: Bytes -> string, inflate: Bytes -> Option<Bytes>,
                     ghost es: seq<Entry>, ghost places: seq<nat>) returns (r: Outcome)
    requires IsArchive(b, es, places)
    ensures r == Expected(es, wanted, decode)
  {
    r := OfficeEntry(b, wanted, decode, inflate);
    assert LastEnd(b, |b| - 22);
    if |es| <= MAX_ENTRIES {
      SearchFindsFirst(b, es, places, 0, wanted, decode, inflate, r);
    }
  }
}
