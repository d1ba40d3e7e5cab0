/** The three verified chunk readers: retained artifact files, design sketches and
    ticket attachments. The server is an arbitrary function from the number of the
    request and its parameters to a response. Whatever it answers, what a reader
    returns has the declared length and consists of the blocks of all its requests,
    each at the offset asked for, end to end. */
module Chunks {
  import opened Common

  /** A response: what it says about the file, where its block starts, and where to go on. */
  datatype Chunk = Chunk(tag: string, total: int, offset: int, count: int, block: Bytes, next: Option<int>)

  /** `Dropped` when the view was closed, `Refused` when a response was not as it must be. */
  datatype Outcome = Dropped | Refused | Loaded(data: Bytes)

  const CHUNK_BYTES := 184320
  const MAX_PARTS := 512
  const MAX_ATTACHMENT := 16 * 1048576

  function Min(a: int, b: int): int {
    if a < b then a else b
  }

  function Max(a: int, b: int): int {
    if a < b then b else a
  }

  /** Every block the server sends is the slice of one fixed file at the offset asked for. */
  ghost predicate Serves(server: (nat, nat, nat) -> Chunk, file: Bytes) {
    forall k: nat, o: nat, m: nat :: o <= |file| ==> SliceOf(server(k, o, m).block, file, o)
  }

  predicate SliceOf(block: Bytes, file: Bytes, o: nat) {
    o + |block| <= |file| && file[o..o + |block|] == block
  }

  lemma {:induction false} Extend(data: Bytes, block: Bytes, file: Bytes)
    requires data <= file && SliceOf(block, file, |data|)
    ensures data + block <= file
  {
    assert file[..|data|] + file[|data|..|data| + |block|] == file[..|data| + |block|];
  }

  // ----- contiguous assembly -----

  /** The blocks of the requests, in order, are the data between consecutive cuts: request `i` asked at the `i`-th cut,
      its response names that offset and says of the file what it must. `asked` gives the size asked for at an
      offset. */
  ghost predicate Assembled(server: (nat, nat, nat) -> Chunk, asked: nat -> nat, ok: Chunk -> bool, cuts: seq<nat>,
                            data: Bytes) {
    && |cuts| > 0 && cuts[0] == 0 && cuts[|cuts| - 1] == |data|
    && forall i :: 0 <= i < |cuts| - 1 ==> Piece(server, asked, ok, i, cuts[i], cuts[i + 1], data)
  }

  ghost predicate Piece(server: (nat, nat, nat) -> Chunk, asked: nat -> nat, ok: Chunk -> bool, i: nat, from: nat,
                        to: nat, data: Bytes) {
    var c := server(i, from, asked(from));
    from <= to <= |data| && c.offset == from && c.block == data[from..to] && ok(c)
  }

  lemma {:induction false} AssembledNext(server: (nat, nat, nat) -> Chunk, asked: nat -> nat, ok: Chunk -> bool,
                                         cuts: seq<nat>, data: Bytes, chunk: Chunk)
    requires Assembled(server, asked, ok, cuts, data) && chunk == server(|cuts| - 1, |data|, asked(|data|))
    requires chunk.offset == |data| && ok(chunk)
    ensures Assembled(server, asked, ok, cuts + [|data| + |chunk.block|], data + chunk.block)
  {
    var more, longer := data + chunk.block, cuts + [|data| + |chunk.block|];
    forall i | 0 <= i < |longer| - 1 ensures Piece(server, asked, ok, i, longer[i], longer[i + 1], more) {
      if i < |cuts| - 1 {
        assert Piece(server, asked, ok, i, cuts[i], cuts[i + 1], data);
        assert more[cuts[i]..cuts[i + 1]] == data[cuts[i]..cuts[i + 1]];
      } else {
        assert more[|data|..] == chunk.block;
      }
    }
  }

  /** Blocks of one file assemble to a prefix of it. */
  lemma {:induction false} AssembledPrefix(server: (nat, nat, nat) -> Chunk, asked: nat -> nat, ok: Chunk -> bool,
                                           cuts: seq<nat>, data: Bytes, file: Bytes, n: nat)
    requires Assembled(server, asked, ok, cuts, data) && Serves(server, file) && n < |cuts|
    ensures cuts[n] <= |data| && cuts[n] <= |file| && data[..cuts[n]] == file[..cuts[n]]
  {
    if n > 0 {
      AssembledPrefix(server, asked, ok, cuts, data, file, n - 1);
      var from, to := cuts[n - 1], cuts[n];
      assert Piece(server, asked, ok, n - 1, from, to, data);
      assert SliceOf(server(n - 1, from, asked(from)).block, file, from);
      assert data[..to] == data[..from] + data[from..to] && file[..to] == file[..from] + file[from..to];
    }
  }

  /** What a loaded result is: the assembly of exactly the requests made. */
  ghost predicate Contiguous(server: (nat, nat, nat) -> Chunk, asked: nat -> nat, ok: Chunk -> bool, r: Result)
    requires r.outcome.Loaded?
  {
    exists cuts: seq<nat> :: |cuts| == r.requests + 1 && Assembled(server, asked, ok, cuts, r.outcome.data)
  }

  lemma {:induction false} ContiguousPrefix(server: (nat, nat, nat) -> Chunk, asked: nat -> nat, ok: Chunk -> bool,
                                            r: Result, file: Bytes)
    requires r.outcome.Loaded? && Contiguous(server, asked, ok, r) && Serves(server, file)
    ensures r.outcome.data <= file
  {
    var cuts: seq<nat> :| |cuts| == r.requests + 1 && Assembled(server, asked, ok, cuts, r.outcome.data);
    AssembledPrefix(server, asked, ok, cuts, r.outcome.data, file, |cuts| - 1);
    assert r.outcome.data[..|r.outcome.data|] == r.outcome.data;
  }

  /** What a reader returned and how many requests it made. */
  datatype Result = Result(outcome: Outcome, requests: nat)

  // ----- artifact files -----

  /** The response belongs to the file and continues it within the limit. */
  predicate Continues(c: Chunk, tag: string, size: nat, limit: nat, o: nat) {
    var end := o + |c.block|;
    && c.tag == tag && c.total == size && c.offset == o && c.count == |c.block| && end <= Min(size, limit)
    && !(c.block == [] && o < size) && c.next == if end < size then Some(end) else None
  }

  function Wanted(limit: nat, o: nat): nat {
    Max(1, Min(CHUNK_BYTES, limit - o))
  }

  /** The response names the file, its size and how many bytes it carries. */
  function OfFile(tag: string, size: nat): Chunk -> bool {
    (c: Chunk) => c.tag == tag && c.total == size && c.count == |c.block|
  }

  function FileSizes(limit: nat): nat -> nat {
    (o: nat) => Wanted(limit, o)
  }

  /** Reading on from request `k` with `data` read so far. */
  function FileFrom(tag: string, size: nat, limit: nat, server: (nat, nat, nat) -> Chunk, closed: nat -> bool, k: nat,
                    data: Bytes): Result
    decreases Min(size, limit) - |data|
  {
    if closed(2 * k) then Result(Dropped, k)
    else
      var chunk := server(k, |data|, Wanted(limit, |data|));
      if closed(2 * k + 1) then Result(Dropped, k + 1)
      else if !Continues(chunk, tag, size, limit, |data|) then Result(Refused, k + 1)
      else if |data + chunk.block| < Min(size, limit)
        then FileFrom(tag, size, limit, server, closed, k + 1, data + chunk.block)
      else Result(Loaded(data + chunk.block), k + 1)
  }

  /** `readFile`: the first `limit` bytes of a listed file. */
  method ReadFile(tag: string, size: nat, limit: nat, server: (nat, nat, nat) -> Chunk, closed: nat -> bool)
    returns (r: Result)
    ensures r == FileFrom(tag, size, limit, server, closed, 0, []) && r.requests <= Max(1, Min(size, limit))
    ensures r.outcome.Dropped? ==> exists i: nat :: closed(i)
    ensures r.outcome.Loaded? ==> |r.outcome.data| == Min(size, limit)
    ensures r.outcome.Loaded? ==> Contiguous(server, FileSizes(limit), OfFile(tag, size), r)
    ensures r.outcome.Loaded? ==> forall file :: Serves(server, file) ==> r.outcome.data <= file
    ensures forall file :: HonestServer(server, file, tag) && size == |file| && (limit > 0 || file == []) ==>
              r.outcome.Dropped? || r.outcome == Loaded(file[..Min(size, limit)])
  {
    ghost var goal := FileFrom(tag, size, limit, server, closed, 0, []);
    var parts: Bytes := [];
    var k, offset := 0, 0;
    while true
      invariant offset == |parts| <= Min(size, limit) && (k > 0 ==> offset < Min(size, limit))
      invariant FileFrom(tag, size, limit, server, closed, k, parts) == goal
      decreases Min(size, limit) - offset
    {
      if closed(2 * k) { r := Result(Dropped, k); break; }
      var chunk := server(k, offset, Max(1, Min(CHUNK_BYTES, limit - offset)));
      if closed(2 * k + 1) { r := Result(Dropped, k + 1); break; }
      var end := offset + |chunk.block|;
      if chunk.tag != tag || chunk.total != size || chunk.offset != offset || chunk.count != |chunk.block|
         || end > Min(size, limit) || (chunk.block == [] && offset < size)
         || chunk.next != (if end < size then Some(end) else None)
      {
        r := Result(Refused, k + 1);
        break;
      }
      parts := parts + chunk.block;
      offset, k := end, k + 1;
      if !(offset < Min(size, limit)) { r := Result(Loaded(parts), k); break; }
    }
    FileCorrect(tag, size, limit, server, closed, r);
  }

  /** Whatever the server answers, a loaded file has the declared length or the limit, and requests are bounded
      by it. */
  lemma {:induction false} FileExact(tag: string, size: nat, limit: nat, server: (nat, nat, nat) -> Chunk,
                                     closed: nat -> bool, k: nat, data: Bytes, r: Result)
    requires |data| <= Min(size, limit) && r == FileFrom(tag, size, limit, server, closed, k, data)
    ensures r.outcome.Loaded? ==> |r.outcome.data| == Min(size, limit)
    ensures r.requests <= k + Max(1, Min(size, limit) - |data|)
    ensures r.outcome.Dropped? ==> exists i: nat :: closed(i)
    decreases Min(size, limit) - |data|
  {
    var chunk := server(k, |data|, Wanted(limit, |data|));
    if Continues(chunk, tag, size, limit, |data|) && |data + chunk.block| < Min(size, limit)
       && !closed(2 * k) && !closed(2 * k + 1) {
      FileExact(tag, size, limit, server, closed, k + 1, data + chunk.block, r);
    }
  }

  /** A loaded file is the blocks of all its requests, end to end. */
  lemma {:induction false} FileContiguous(tag: string, size: nat, limit: nat, server: (nat, nat, nat) -> Chunk,
                                          closed: nat -> bool, cuts: seq<nat>, data: Bytes, r: Result)
    requires Assembled(server, FileSizes(limit), OfFile(tag, size), cuts, data)
    requires r == FileFrom(tag, size, limit, server, closed, |cuts| - 1, data)
    ensures r.outcome.Loaded? ==> Contiguous(server, FileSizes(limit), OfFile(tag, size), r)
    decreases Min(size, limit) - |data|
  {
    var k := |cuts| - 1;
    var chunk := server(k, |data|, Wanted(limit, |data|));
    if Continues(chunk, tag, size, limit, |data|) && !closed(2 * k) && !closed(2 * k + 1) {
      AssembledNext(server, FileSizes(limit), OfFile(tag, size), cuts, data, chunk);
      if |data + chunk.block| < Min(size, limit) {
        FileContiguous(tag, size, limit, server, closed, cuts + [|data| + |chunk.block|], data + chunk.block, r);
      }
    }
  }

  /** Some of the bytes asked for, at least one while there are any, with a correct description. */
  ghost predicate Honest(c: Chunk, file: Bytes, tag: string, o: nat, m: nat) {
    && SliceOf(c.block, file, o) && |c.block| <= m && (o < |file| ==> c.block != [])
    && c.tag == tag && c.total == |file| && c.offset == o && c.count == |c.block|
    && c.next == if o + |c.block| < |file| then Some(o + |c.block|) else None
  }

  ghost predicate HonestServer(server: (nat, nat, nat) -> Chunk, file: Bytes, tag: string) {
    forall k: nat, o: nat, m: nat :: o <= |file| && m >= 1 ==> Honest(server(k, o, m), file, tag, o, m)
  }

  /** An honest server is never refused: unless the view is closed, exactly the wanted prefix is loaded. */
  lemma {:induction false} FileComplete(tag: string, limit: nat, server: (nat, nat, nat) -> Chunk, closed: nat -> bool,
                                        k: nat, data: Bytes, r: Result, file: Bytes)
    requires HonestServer(server, file, tag) && (limit > 0 || file == []) && data <= file && |data| <= limit
    requires |data| < Min(|file|, limit) || data == []
    requires r == FileFrom(tag, |file|, limit, server, closed, k, data)
    ensures r.outcome.Dropped? || r.outcome == Loaded(file[..Min(|file|, limit)])
    decreases Min(|file|, limit) - |data|
  {
    var m := Wanted(limit, |data|);
    var chunk := server(k, |data|, m);
    assert Honest(chunk, file, tag, |data|, m);
    Extend(data, chunk.block, file);
    assert Continues(chunk, tag, |file|, limit, |data|);
    if |data + chunk.block| < Min(|file|, limit) && !closed(2 * k) && !closed(2 * k + 1) {
      FileComplete(tag, limit, server, closed, k + 1, data + chunk.block, r, file);
    }
  }

  /** From an honest server that fills its chunks a file takes no more requests than its size needs: all but the last
      bring 184320 bytes. */
  lemma {:induction false} FileRequests(tag: string, limit: nat, server: (nat, nat, nat) -> Chunk, closed: nat -> bool,
                                        k: nat, data: Bytes, r: Result, file: Bytes)
    requires HonestServer(server, file, tag) && FullServer(server, file) && data <= file
    requires |data| == k * 184320 && (|data| < Min(|file|, limit) || data == [])
    requires r == FileFrom(tag, |file|, limit, server, closed, k, data) && r.outcome.Loaded?
    ensures r.requests > 0 && (r.requests - 1) * 184320 < Max(1, Min(|file|, limit))
    decreases Min(|file|, limit) - |data|
  {
    var m := Wanted(limit, |data|);
    var chunk := server(k, |data|, m);
    assert Honest(chunk, file, tag, |data|, m) && Full(chunk, file, |data|, m);
    Extend(data, chunk.block, file);
    if |data + chunk.block| < Min(|file|, limit) {
      FileRequests(tag, limit, server, closed, k + 1, data + chunk.block, r, file);
    }
  }

  /** The three results together, for a whole read. */
  lemma {:induction false} FileCorrect(tag: string, size: nat, limit: nat, server: (nat, nat, nat) -> Chunk,
                                       closed: nat -> bool, r: Result)
    requires r == FileFrom(tag, size, limit, server, closed, 0, [])
    ensures r.requests <= Max(1, Min(size, limit)) && (r.outcome.Loaded? ==> |r.outcome.data| == Min(size, limit))
    ensures r.outcome.Dropped? ==> exists i: nat :: closed(i)
    ensures r.outcome.Loaded? ==> Contiguous(server, FileSizes(limit), OfFile(tag, size), r)
    ensures r.outcome.Loaded? ==> forall file :: Serves(server, file) ==> r.outcome.data <= file
    ensures forall file :: HonestServer(server, file, tag) && size == |file| && (limit > 0 || file == []) ==>
              r.outcome.Dropped? || r.outcome == Loaded(file[..Min(size, limit)])
  {
    FileExact(tag, size, limit, server, closed, 0, [], r);
    FileContiguous(tag, size, limit, server, closed, [0], [], r);
    forall file | r.outcome.Loaded? && Serves(server, file) ensures r.outcome.data <= file {
      ContiguousPrefix(server, FileSizes(limit), OfFile(tag, size), r, file);
    }
    forall file | HonestServer(server, file, tag) && size == |file| && (limit > 0 || file == [])
      ensures r.outcome.Dropped? || r.outcome == Loaded(file[..Min(size, limit)])
    {
      FileComplete(tag, limit, server, closed, 0, [], r, file);
    }
  }

  // ----- sketches -----

  predicate Joins(c: Chunk, o: nat, total: int) {
    && c.offset == o && c.total == total && !(c.block == [] && c.next.Some?)
    && match c.next
       case None => o + |c.block| == total
       case Some(next) => o < next <= total && next == o + |c.block|
  }

  const SKETCH_SIZES: nat -> nat := (o: nat) => CHUNK_BYTES

  /** The response declares the size the first one declared. */
  function OfTotal(total: int): Chunk -> bool {
    (c: Chunk) => c.total == total
  }

  function SketchFrom(server: (nat, nat, nat) -> Chunk, k: nat, data: Bytes, total: int): Result
    requires k < MAX_PARTS
    decreases MAX_PARTS - k
  {
    var part := server(k, |data|, CHUNK_BYTES);
    if !Joins(part, |data|, total) then Result(Refused, k + 1)
    else if part.next.None? then Result(Loaded(data + part.block), k + 1)
    else if k == MAX_PARTS - 1 then Result(Refused, k + 1)
    else SketchFrom(server, k + 1, data + part.block, total)
  }

  /** `sketchImageUrl`: a whole sketch in at most 512 chunks. */
  method ReadSketch(server: (nat, nat, nat) -> Chunk) returns (r: Result)
    ensures r == SketchFrom(server, 0, [], server(0, 0, CHUNK_BYTES).total) && r.requests <= 512
    ensures r.outcome.Loaded? ==> |r.outcome.data| == server(0, 0, CHUNK_BYTES).total
    ensures r.outcome.Loaded? ==> Contiguous(server, SKETCH_SIZES, OfTotal(server(0, 0, CHUNK_BYTES).total), r)
    ensures r.outcome.Loaded? ==> forall file :: Serves(server, file) ==> r.outcome.data <= file
    ensures forall file :: FullServer(server, file) ==>
              r.outcome == if |file| <= 512 * 184320 then Loaded(file) else Refused
  {
    var chunks: Bytes := [];
    var offset, total := 0, None;
    ghost var goal := SketchFrom(server, 0, [], server(0, 0, CHUNK_BYTES).total);
    var guard := 0;
    while true
      invariant offset == |chunks| && (guard == 0 ==> chunks == [])
      invariant total == if guard == 0 then None else Some(server(0, 0, CHUNK_BYTES).total)
      invariant guard < MAX_PARTS && SketchFrom(server, guard, chunks, server(0, 0, CHUNK_BYTES).total) == goal
      decreases MAX_PARTS - guard
    {
      var part := server(guard, offset, CHUNK_BYTES);
      r := Result(Refused, guard + 1);
      if part.offset != offset { break; }
      if total.None? { total := Some(part.total); }
      if part.total != total.value { break; }
      if part.block == [] && part.next.Some? { break; }
      chunks := chunks + part.block;
      if part.next.None? {
        offset := offset + |part.block|;
        if offset != total.value { break; }
        r := Result(Loaded(chunks), guard + 1);
        break;
      }
      var next := part.next.value;
      if next <= offset || next > total.value || next != offset + |part.block| { break; }
      offset := next;
      if guard == MAX_PARTS - 1 { break; }
      guard := guard + 1;
    }
    SketchCorrect(server, r);
  }

  /** Whatever the server answers, a loaded sketch has the length the first response declared. */
  lemma {:induction false} SketchExact(server: (nat, nat, nat) -> Chunk, k: nat, data: Bytes, total: int, r: Result)
    requires k < MAX_PARTS && r == SketchFrom(server, k, data, total)
    ensures !r.outcome.Dropped? && r.requests <= MAX_PARTS && (r.outcome.Loaded? ==> |r.outcome.data| == total)
    decreases MAX_PARTS - k
  {
    var part := server(k, |data|, CHUNK_BYTES);
    if Joins(part, |data|, total) && part.next.Some? && k < MAX_PARTS - 1 {
      SketchExact(server, k + 1, data + part.block, total, r);
    }
  }

  /** A loaded sketch is the blocks of all its requests, end to end. */
  lemma {:induction false} SketchContiguous(server: (nat, nat, nat) -> Chunk, cuts: seq<nat>, data: Bytes, total: int,
                                            r: Result)
    requires Assembled(server, SKETCH_SIZES, OfTotal(total), cuts, data)
    requires |cuts| <= MAX_PARTS && r == SketchFrom(server, |cuts| - 1, data, total)
    ensures r.outcome.Loaded? ==> Contiguous(server, SKETCH_SIZES, OfTotal(total), r)
    decreases MAX_PARTS - |cuts|
  {
    var part := server(|cuts| - 1, |data|, CHUNK_BYTES);
    if Joins(part, |data|, total) {
      AssembledNext(server, SKETCH_SIZES, OfTotal(total), cuts, data, part);
      if part.next.Some? && |cuts| < MAX_PARTS {
        SketchContiguous(server, cuts + [|data| + |part.block|], data + part.block, total, r);
      }
    }
  }

  /** A server that sends as many bytes as asked for while it has them. */
  ghost predicate Full(c: Chunk, file: Bytes, o: nat, m: nat) {
    && SliceOf(c.block, file, o) && |c.block| == Min(m, |file| - o) && c.total == |file| && c.offset == o
    && c.next == if o + m < |file| then Some(o + m) else None
  }

  ghost predicate FullServer(server: (nat, nat, nat) -> Chunk, file: Bytes) {
    forall k: nat, o: nat, m: nat :: o <= |file| ==> Full(server(k, o, m), file, o, m)
  }

  /** From a server that fills its chunks, a sketch is loaded whole if and only if it fits 512 chunks. */
  lemma {:induction false} SketchComplete(server: (nat, nat, nat) -> Chunk, k: nat, data: Bytes, r: Result, file: Bytes)
    requires k < MAX_PARTS && FullServer(server, file) && r == SketchFrom(server, k, data, |file|)
    requires data <= file && |data| == k * CHUNK_BYTES && (k > 0 ==> |data| < |file|)
    ensures r.outcome == if |file| <= MAX_PARTS * CHUNK_BYTES then Loaded(file) else Refused
    decreases MAX_PARTS - k
  {
    var part := server(k, |data|, CHUNK_BYTES);
    assert Full(part, file, |data|, CHUNK_BYTES);
    Extend(data, part.block, file);
    if part.next.Some? && k < MAX_PARTS - 1 {
      SketchComplete(server, k + 1, data + part.block, r, file);
    } else if part.next.None? {
      assert |data + part.block| == |file|;
    }
  }

  lemma {:induction false} SketchCorrect(server: (nat, nat, nat) -> Chunk, r: Result)
    requires r == SketchFrom(server, 0, [], server(0, 0, CHUNK_BYTES).total)
    ensures r.requests <= MAX_PARTS && (r.outcome.Loaded? ==> |r.outcome.data| == server(0, 0, CHUNK_BYTES).total)
    ensures r.outcome.Loaded? ==> Contiguous(server, SKETCH_SIZES, OfTotal(server(0, 0, CHUNK_BYTES).total), r)
    ensures r.outcome.Loaded? ==> forall file :: Serves(server, file) ==> r.outcome.data <= file
    ensures forall file :: FullServer(server, file) ==>
              r.outcome == if |file| <= MAX_PARTS * CHUNK_BYTES then Loaded(file) else Refused
  {
    var total := server(0, 0, CHUNK_BYTES).total;
    SketchExact(server, 0, [], total, r);
    SketchContiguous(server, [0], [], total, r);
    forall file | r.outcome.Loaded? && Serves(server, file) ensures r.outcome.data <= file {
      ContiguousPrefix(server, SKETCH_SIZES, OfTotal(total), r, file);
    }
    forall file | FullServer(server, file)
      ensures r.outcome == if |file| <= MAX_PARTS * CHUNK_BYTES then Loaded(file) else Refused
    {
      assert Full(server(0, 0, CHUNK_BYTES), file, 0, CHUNK_BYTES);
      SketchComplete(server, 0, [], r, file);
    }
  }

  // ----- ticket attachments -----

  /** The response names the file, keeps its digest and stays within the length it declares. */
  predicate Follows(c: Chunk, tag: string, same: bool, o: nat) {
    var end := o + |c.block|;
    && c.offset == o && c.tag == tag && c.total <= MAX_ATTACHMENT && same && end <= c.total
    && (c.next.Some? ==> c.next.value == end > o)
  }

  const ATTACHMENT_SIZES: nat -> nat := (o: nat) => 0

  /** The response names the attachment. */
  function OfTag(tag: string): Chunk -> bool {
    (c: Chunk) => c.tag == tag
  }

  /** Every response the data were assembled from declared the digest `d`. */
  ghost predicate Declared(sum: (nat, nat) -> string, cuts: seq<nat>, d: string) {
    forall i :: 0 <= i < |cuts| - 1 ==> sum(i, cuts[i]) == d
  }

  /** A loaded attachment is the assembly of the requests made, and each of their responses declared its digest. */
  ghost predicate Sealed(tag: string, server: (nat, nat, nat) -> Chunk, sum: (nat, nat) -> string,
                         digest: Bytes -> string, r: Result)
    requires r.outcome.Loaded?
  {
    exists cuts: seq<nat> :: |cuts| == r.requests + 1
                             && Assembled(server, ATTACHMENT_SIZES, OfTag(tag), cuts, r.outcome.data)
                             && Declared(sum, cuts, digest(r.outcome.data))
  }

  /** `sum` gives each response's digest, `active` whether the view is still open after it. */
  function AttachmentFrom(tag: string, server: (nat, nat, nat) -> Chunk, sum: (nat, nat) -> string,
                          digest: Bytes -> string, active: nat -> bool, k: nat, data: Bytes): Result
    decreases MAX_ATTACHMENT - |data|
  {
    var chunk := server(k, |data|, 0);
    if !Follows(chunk, tag, k == 0 || sum(k, |data|) == sum(0, 0), |data|) then Result(Refused, k + 1)
    else if !active(k) then Result(Dropped, k + 1)
    else if chunk.next.Some? then AttachmentFrom(tag, server, sum, digest, active, k + 1, data + chunk.block)
    else if digest(data + chunk.block) != sum(k, |data|) || |data + chunk.block| != chunk.total
      then Result(Refused, k + 1)
    else Result(Loaded(data + chunk.block), k + 1)
  }

  /** Some bytes of the file at a time, at least one while there are any, with a correct description and digest. */
  ghost predicate HonestAttachment(server: (nat, nat, nat) -> Chunk, sum: (nat, nat) -> string, digest: Bytes -> string,
                                   tag: string, file: Bytes) {
    forall k: nat, o: nat :: o <= |file| ==> Honest(server(k, o, 0), file, tag, o, |file|) && sum(k, o) == digest(file)
  }

  /** `readAttachment`: a whole attachment whose digest matches. */
  method ReadAttachment(tag: string, server: (nat, nat, nat) -> Chunk, sum: (nat, nat) -> string,
                        digest: Bytes -> string, active: nat -> bool) returns (r: Result)
    ensures r == AttachmentFrom(tag, server, sum, digest, active, 0, []) && r.requests <= 16777217
    ensures r.outcome.Dropped? ==> exists i: nat :: !active(i)
    ensures r.outcome.Loaded? ==> |r.outcome.data| <= 16777216 && digest(r.outcome.data) == sum(0, 0)
    ensures r.outcome.Loaded? ==> r.requests > 0 && EndsWith(server, r.requests - 1, r.outcome.data)
    ensures r.outcome.Loaded? ==> Sealed(tag, server, sum, digest, r)
    ensures r.outcome.Loaded? ==> forall file :: Serves(server, file) ==> r.outcome.data <= file
    ensures forall file :: HonestAttachment(server, sum, digest, tag, file) && |file| <= 16777216 ==>
              r.outcome.Dropped? || r.outcome == Loaded(file)
  {
    r := FetchAttachment(tag, server, sum, digest, active);
    AttachmentCorrect(tag, server, sum, digest, active, r);
  }

  method FetchAttachment(tag: string, server: (nat, nat, nat) -> Chunk, sum: (nat, nat) -> string,
                         digest: Bytes -> string, active: nat -> bool) returns (r: Result)
    ensures r == AttachmentFrom(tag, server, sum, digest, active, 0, [])
  {
    ghost var goal := AttachmentFrom(tag, server, sum, digest, active, 0, []);
    var pieces: Bytes := [];
    var k, offset, known := 0, 0, "";
    while true
      invariant offset == |pieces| <= MAX_ATTACHMENT && (k > 0 ==> known == sum(0, 0)) && (k == 0 ==> pieces == [])
      invariant AttachmentFrom(tag, server, sum, digest, active, k, pieces) == goal
      decreases MAX_ATTACHMENT - offset
    {
      var chunk := server(k, offset, 0);
      if chunk.offset != offset || chunk.tag != tag || chunk.total > MAX_ATTACHMENT
         || (k > 0 && known != sum(k, offset)) {
        return Result(Refused, k + 1);
      }
      known := sum(k, offset);
      pieces := pieces + chunk.block;
      if |pieces| > chunk.total || (chunk.next.Some? && (chunk.next.value != |pieces| || chunk.next.value <= offset)) {
        return Result(Refused, k + 1);
      }
      assert Follows(chunk, tag, k == 0 || sum(k, offset) == sum(0, 0), offset);
      if !active(k) { return Result(Dropped, k + 1); }
      if chunk.next.None? {
        if digest(pieces) != known || |pieces| != chunk.total { return Result(Refused, k + 1); }
        return Result(Loaded(pieces), k + 1);
      }
      offset, k := chunk.next.value, k + 1;
    }
  }

  lemma {:induction false} AttachmentCorrect(tag: string, server: (nat, nat, nat) -> Chunk, sum: (nat, nat) -> string,
                                             digest: Bytes -> string, active: nat -> bool, r: Result)
    requires r == AttachmentFrom(tag, server, sum, digest, active, 0, [])
    ensures r.requests <= 1 + MAX_ATTACHMENT && (r.outcome.Dropped? ==> exists i: nat :: !active(i))
    ensures r.outcome.Loaded? ==> |r.outcome.data| <= MAX_ATTACHMENT && digest(r.outcome.data) == sum(0, 0)
    ensures r.outcome.Loaded? ==> r.requests > 0 && EndsWith(server, r.requests - 1, r.outcome.data)
    ensures r.outcome.Loaded? ==> Sealed(tag, server, sum, digest, r)
    ensures r.outcome.Loaded? ==> forall file :: Serves(server, file) ==> r.outcome.data <= file
    ensures forall file :: HonestAttachment(server, sum, digest, tag, file) && |file| <= MAX_ATTACHMENT ==>
              r.outcome.Dropped? || r.outcome == Loaded(file)
  {
    AttachmentExact(tag, server, sum, digest, active, 0, [], r);
    AttachmentSealed(tag, server, sum, digest, active, [0], [], r);
    forall file | r.outcome.Loaded? && Serves(server, file) ensures r.outcome.data <= file {
      ContiguousPrefix(server, ATTACHMENT_SIZES, OfTag(tag), r, file);
    }
    forall file | HonestAttachment(server, sum, digest, tag, file) && |file| <= MAX_ATTACHMENT
      ensures r.outcome.Dropped? || r.outcome == Loaded(file)
    {
      AttachmentComplete(tag, server, sum, digest, active, 0, [], r, file);
    }
  }

  /** An honest server is never refused: unless the view is closed, exactly the file is loaded. */
  lemma {:induction false} AttachmentComplete(tag: string, server: (nat, nat, nat) -> Chunk, sum: (nat, nat) -> string,
                                              digest: Bytes -> string, active: nat -> bool, k: nat, data: Bytes,
                                              r: Result, file: Bytes)
    requires r == AttachmentFrom(tag, server, sum, digest, active, k, data) && data <= file && |file| <= MAX_ATTACHMENT
    requires HonestAttachment(server, sum, digest, tag, file) && (data == [] || |data| < |file|)
    ensures r.outcome.Dropped? || r.outcome == Loaded(file)
    decreases |file| - |data|
  {
    var chunk := server(k, |data|, 0);
    assert Honest(chunk, file, tag, |data|, |file|) && sum(k, |data|) == digest(file) == sum(0, 0);
    Extend(data, chunk.block, file);
    assert Follows(chunk, tag, k == 0 || sum(k, |data|) == sum(0, 0), |data|);
    if active(k) {
      if chunk.next.Some? {
        AttachmentComplete(tag, server, sum, digest, active, k + 1, data + chunk.block, r, file);
      } else {
        assert data + chunk.block == file;
      }
    }
  }

  /** Whatever the server answers, a loaded attachment is at most 16 MiB, has the digest every response declared and
      the length the last one declared; requests are bounded. */
  lemma {:induction false} AttachmentExact(tag: string, server: (nat, nat, nat) -> Chunk, sum: (nat, nat) -> string,
                                           digest: Bytes -> string, active: nat -> bool, k: nat, data: Bytes, r: Result)
    requires r == AttachmentFrom(tag, server, sum, digest, active, k, data) && |data| <= MAX_ATTACHMENT
    requires (k == 0 ==> data == [])
    ensures r.requests <= k + 1 + MAX_ATTACHMENT - |data|
    ensures r.outcome.Dropped? ==> exists i: nat :: !active(i)
    ensures r.outcome.Loaded? ==> |r.outcome.data| <= MAX_ATTACHMENT && digest(r.outcome.data) == sum(0, 0)
    ensures r.outcome.Loaded? ==> r.requests > 0 && EndsWith(server, r.requests - 1, r.outcome.data)
    decreases MAX_ATTACHMENT - |data|
  {
    var chunk := server(k, |data|, 0);
    if Follows(chunk, tag, k == 0 || sum(k, |data|) == sum(0, 0), |data|) && active(k) {
      if chunk.next.Some? {
        AttachmentExact(tag, server, sum, digest, active, k + 1, data + chunk.block, r);
      } else {
        assert (data + chunk.block)[|data|..] == chunk.block;
      }
    }
  }

  /** The last response ends the data and declares its length. */
  ghost predicate EndsWith(server: (nat, nat, nat) -> Chunk, k: nat, data: Bytes) {
    exists o: nat :: o <= |data| && server(k, o, 0).block == data[o..] && server(k, o, 0).total == |data|
  }

  /** A loaded attachment is the blocks of all its requests, end to end, and all of them declared its digest. */
  lemma {:induction false} AttachmentSealed(tag: string, server: (nat, nat, nat) -> Chunk, sum: (nat, nat) -> string,
                                            digest: Bytes -> string, active: nat -> bool, cuts: seq<nat>, data: Bytes,
                                            r: Result)
    requires Assembled(server, ATTACHMENT_SIZES, OfTag(tag), cuts, data) && Declared(sum, cuts, sum(0, 0))
    requires r == AttachmentFrom(tag, server, sum, digest, active, |cuts| - 1, data)
    ensures r.outcome.Loaded? ==> Sealed(tag, server, sum, digest, r)
    decreases MAX_ATTACHMENT - |data|
  {
    var k := |cuts| - 1;
    var chunk, longer := server(k, |data|, 0), cuts + [|data| + |server(k, |data|, 0).block|];
    if Follows(chunk, tag, k == 0 || sum(k, |data|) == sum(0, 0), |data|) && active(k) {
      AssembledNext(server, ATTACHMENT_SIZES, OfTag(tag), cuts, data, chunk);
      assert Declared(sum, longer, sum(0, 0)) by {
        forall i | 0 <= i < |longer| - 1 ensures sum(i, longer[i]) == sum(0, 0) {
          if i < k { assert longer[i] == cuts[i]; }
        }
      }
      if chunk.next.Some? {
        AttachmentSealed(tag, server, sum, digest, active, longer, data + chunk.block, r);
      }
    }
  }

  // ----- servers as the readers expect them -----

  /** At most `n` bytes of the file at offset `o`, with a correct description. */
  function SliceChunk(file: Bytes, tag: string, o: nat, n: nat): Chunk {
    if o >= |file| then Chunk(tag, |file|, o, 0, [], None)
    else
      var end := Min(o + n, |file|);
      Chunk(tag, |file|, o, end - o, file[o..end], if end < |file| then Some(end) else None)
  }

  function SliceServer(file: Bytes, tag: string): (nat, nat, nat) -> Chunk {
    (k: nat, o: nat, m: nat) => SliceChunk(file, tag, o, m)
  }

  /** The attachment service chooses the size of its chunks itself. */
  function BlockServer(file: Bytes, tag: string): (nat, nat, nat) -> Chunk {
    (k: nat, o: nat, m: nat) => SliceChunk(file, tag, o, CHUNK_BYTES)
  }

  function OneDigest(d: string): (nat, nat) -> string {
    (k: nat, o: nat) => d
  }

  lemma {:induction false} SliceFits(file: Bytes, tag: string, o: nat, n: nat)
    requires o <= |file|
    ensures SliceOf(SliceChunk(file, tag, o, n).block, file, o) && Full(SliceChunk(file, tag, o, n), file, o, n)
    ensures n >= 1 ==> Honest(SliceChunk(file, tag, o, n), file, tag, o, n)
  {
  }

  /** For every file there is a server that serves slices of it, fills the chunks of a sketch and is honest to the file
      reader, and one that is honest to the attachment reader: none of the promises about such servers is empty. */
  lemma {:induction false} ServersExist(file: Bytes, tag: string, digest: Bytes -> string)
    ensures var server := SliceServer(file, tag);
            Serves(server, file) && FullServer(server, file) && HonestServer(server, file, tag)
    ensures var server := BlockServer(file, tag);
            Serves(server, file) && HonestAttachment(server, OneDigest(digest(file)), digest, tag, file)
  {
    forall o: nat, m: nat | o <= |file|
      ensures var c := SliceChunk(file, tag, o, m);
              SliceOf(c.block, file, o) && Full(c, file, o, m) && (m >= 1 ==> Honest(c, file, tag, o, m))
    {
      SliceFits(file, tag, o, m);
    }
    forall o: nat | o <= |file| ensures Honest(SliceChunk(file, tag, o, CHUNK_BYTES), file, tag, o, |file|) {
      SliceFits(file, tag, o, CHUNK_BYTES);
    }
  }
}
