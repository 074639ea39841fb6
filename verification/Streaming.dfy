/** Serving a byte range of a video: from Telegram in request-sized chunks that
    start at an aligned offset, or from the cached file in reads of its own size.
    Both must send exactly the bytes that Content-Range announces. */
module Streaming {
  import opened Options

  newtype Byte = x: int | 0 <= x < 256

  type Bytes = seq<Byte>

  const REQUEST_SIZE: nat := 131072
  const READ_SIZE: nat := 1048576

  function Flat(chunks: seq<Bytes>): Bytes {
    if chunks == [] then [] else Flat(chunks[..|chunks| - 1]) + chunks[|chunks| - 1]
  }

  lemma FlatAppend(chunks: seq<Bytes>, c: Bytes)
    ensures Flat(chunks + [c]) == Flat(chunks) + c
  {
    assert (chunks + [c])[..|chunks|] == chunks;
  }

  lemma {:induction false} FlatConcat(a: seq<Bytes>, b: seq<Bytes>)
    ensures Flat(a + b) == Flat(a) + Flat(b)
  {
    if b == [] {
      assert a + b == a;
    } else {
      var c := b[..|b| - 1];
      assert (a + b)[..|a + b| - 1] == a + c;
      FlatConcat(a, c);
    }
  }

  function Min(a: int, b: int): int {
    if a < b then a else b
  }

  // ----- The range

  /** First and last byte to serve, from the two optional numbers of the Range header. */
  function Bounds(first: Option<nat>, last: Option<nat>, size: nat): (int, int) {
    var start := if first.Some? then first.value else 0;
    var end := if last.Some? then last.value else size - 1;
    (start, if end >= size then size - 1 else end)
  }

  /** Section 14.1.2 of RFC 9110: the bytes that an int-range selects. */
  predicate Selected(first: nat, last: Option<nat>, k: int) {
    first <= k && (last.Some? ==> k <= last.value)
  }

  /** The code serves the selected bytes of the file and no others. */
  lemma BoundsOfIntRange(first: nat, last: Option<nat>, size: nat)
    requires first < size && (last.Some? ==> first <= last.value)
    ensures var (start, end) := Bounds(Some(first), last, size);
            && start == first <= end < size
            && forall k :: 0 <= k < size ==> (Selected(first, last, k) <==> start <= k <= end)
  {
  }

  /** A suffix-range asks for the last `n` bytes; the code serves the first n + 1,
      which is the same only when the whole file is asked for. */
  lemma SuffixRangeExactly(n: nat, file: Bytes)
    requires n > 0 && file != []
    ensures var (start, end) := Bounds(None, Some(n), |file|);
            0 <= start <= end < |file|
            && (file[start..end + 1] == file[|file| - Min(n, |file|)..] <==> n >= |file|)
  {
    var (start, end) := Bounds(None, Some(n), |file|);
    if n < |file| {
      assert |file[start..end + 1]| == n + 1;
      assert |file[|file| - n..]| == n;
    }
  }

  function Aligned(start: nat): nat {
    start / REQUEST_SIZE * REQUEST_SIZE
  }

  /** The offset Telegram gets is a multiple of the request size, less than one request before the start. */
  lemma AlignedOffset(start: nat)
    ensures Aligned(start) % (128 * 1024) == 0 && Aligned(start) <= start < Aligned(start) + 128 * 1024
  {
  }

  // ----- The two generators

  /** What the download delivered before it ended: everything before the first empty chunk. */
  function Delivered(chunks: seq<Bytes>): seq<Bytes> {
    if chunks == [] then [] else if chunks[0] == [] then [] else [chunks[0]] + Delivered(chunks[1..])
  }

  lemma {:induction false} DeliveredAll(chunks: seq<Bytes>)
    requires forall k :: 0 <= k < |chunks| ==> chunks[k] != []
    ensures Delivered(chunks) == chunks
  {
    if chunks != [] {
      DeliveredAll(chunks[1..]);
    }
  }

  function Drop(s: Bytes, k: nat): Bytes {
    if |s| <= k then [] else s[k..]
  }

  function Take(s: Bytes, k: nat): Bytes {
    if |s| <= k then s else s[..k]
  }

  /** The bytes [from, from + n) of what arrived, as far as it arrived. */
  function Window(arrived: Bytes, from: nat, n: nat): Bytes {
    Take(Drop(arrived, from), n)
  }

  lemma DropConcat(a: Bytes, c: Bytes, k: nat)
    ensures Drop(a + c, k) == Drop(a, k) + Drop(c, if |a| < k then k - |a| else 0)
  {
    if |a| >= k {
      assert (a + c)[k..] == a[k..] + c;
    }
  }

  function Monus(a: nat, b: nat): nat {
    if a < b then 0 else a - b
  }

  /** A window over two parts is what it has of the first and then of the second. */
  lemma WindowConcat(a: Bytes, b: Bytes, from: nat, n: nat)
    ensures var head := Window(a, from, n);
            |head| <= n && Window(a + b, from, n) == head + Window(b, Monus(from, |a|), n - |head|)
  {
    DropConcat(a, b, from);
  }

  /** What a download still has to contribute to the window. */
  function Owed(chunks: seq<Bytes>, skip: nat, size: nat): Bytes {
    Window(Flat(Delivered(chunks)), skip, size)
  }

  lemma OwedStep(chunks: seq<Bytes>, skip: nat, size: nat)
    requires chunks != [] && chunks[0] != []
    ensures var piece := Window(chunks[0], skip, size);
            |piece| <= size
            && Owed(chunks, skip, size) == piece + Owed(chunks[1..], Monus(skip, |chunks[0]|), size - |piece|)
  {
    var rest := Delivered(chunks[1..]);
    FlatConcat([chunks[0]], rest);
    assert Flat([chunks[0]]) == chunks[0];
    WindowConcat(chunks[0], Flat(rest), skip, size);
  }

  /** The same in the middle of the chunks. */
  lemma OwedAt(chunks: seq<Bytes>, i: nat, skip: nat, size: nat)
    requires i < |chunks| && chunks[i] != []
    ensures var piece := Window(chunks[i], skip, size);
            |piece| <= size
            && Owed(chunks[i..], skip, size) == piece + Owed(chunks[i + 1..], Monus(skip, |chunks[i]|), size - |piece|)
  {
    OwedStep(chunks[i..], skip, size);
    assert chunks[i..][1..] == chunks[i + 1..];
  }

  lemma OwedNothing(chunks: seq<Bytes>, skip: nat, size: nat)
    requires chunks == [] || chunks[0] == [] || size == 0
    ensures Owed(chunks, skip, size) == []
  {
  }

  /** What one chunk contributes: the alignment bytes go, the surplus is cut off. */
  method Feed(chunk: Bytes, skipRemaining: nat, bytesToRead: nat)
    returns (piece: Bytes, skipLeft: nat, toRead: nat, stop: bool)
    requires bytesToRead > 0
    ensures piece == Window(chunk, skipRemaining, bytesToRead)
    ensures skipLeft == Monus(skipRemaining, |chunk|)
    ensures toRead == bytesToRead - |piece| && (stop <==> toRead == 0)
  {
    piece, skipLeft, toRead := chunk, skipRemaining, bytesToRead;
    if skipLeft > 0 {
      var drop := Min(skipLeft, |piece|);
      piece := piece[drop..];
      skipLeft := skipLeft - drop;
      if piece == [] {
        return piece, skipLeft, toRead, false;
      }
    }
    if |piece| > toRead {
      return piece[..toRead], skipLeft, 0, true;
    }
    toRead := toRead - |piece|;
    stop := toRead == 0;
  }

  /** What was sent and what the rest still owes make up the goal. */
  ghost predicate OnTrack(goal: Bytes, out: seq<Bytes>, rest: seq<Bytes>, skip: nat, size: nat) {
    Flat(out) + Owed(rest, skip, size) == goal
  }

  lemma StaysOnTrack(goal: Bytes, out: seq<Bytes>, chunks: seq<Bytes>, i: nat, skip: nat, size: nat)
    requires i < |chunks| && chunks[i] != [] && OnTrack(goal, out, chunks[i..], skip, size)
    ensures var piece := Window(chunks[i], skip, size);
            |piece| <= size
            && OnTrack(goal, if piece == [] then out else out + [piece], chunks[i + 1..],
                       Monus(skip, |chunks[i]|), size - |piece|)
  {
    var piece := Window(chunks[i], skip, size);
    OwedAt(chunks, i, skip, size);
    FlatAppend(out, piece);
    var owed := Owed(chunks[i + 1..], Monus(skip, |chunks[i]|), size - |piece|);
    assert Flat(out) + (piece + owed) == (Flat(out) + piece) + owed;
    assert piece == [] ==> Flat(out) + piece == Flat(out);
  }

  lemma Arrived(goal: Bytes, out: seq<Bytes>, rest: seq<Bytes>, skip: nat, size: nat)
    requires OnTrack(goal, out, rest, skip, size) && (rest == [] || rest[0] == [] || size == 0)
    ensures Flat(out) == goal
  {
    OwedNothing(rest, skip, size);
  }

  /** The loop of the Telegram generator: discard the alignment bytes, trim the last
      chunk, stop when enough was sent. Whatever way the download is cut into chunks,
      and even if it ends early, what is sent is the requested window of what arrived. */
  method SkipAndTrim(chunks: seq<Bytes>, skip: nat, size: nat) returns (out: seq<Bytes>)
    requires size > 0
    ensures Flat(out) == Owed(chunks, skip, size)
    ensures forall i :: 0 <= i < |out| ==> out[i] != []
  {
    var bytesToRead, skipRemaining := size, skip;
    out := [];
    var i, stop := 0, false;
    ghost var goal := Owed(chunks, skip, size);
    assert chunks[0..] == chunks;
    while i < |chunks| && !stop && chunks[i] != []
      invariant 0 <= i <= |chunks| && (stop <==> bytesToRead == 0)
      invariant forall k :: 0 <= k < |out| ==> out[k] != []
      invariant OnTrack(goal, out, chunks[i..], skipRemaining, bytesToRead)
      decreases |chunks| - i
    {
      StaysOnTrack(goal, out, chunks, i, skipRemaining, bytesToRead);
      var piece: Bytes;
      piece, skipRemaining, bytesToRead, stop := Feed(chunks[i], skipRemaining, bytesToRead);
      i := i + 1;
      if piece != [] {
        out := out + [piece];
      }
    }
    Arrived(goal, out, chunks[i..], skipRemaining, bytesToRead);
  }

  /** The Telegram generator, from the aligned offset on. */
  method TelethonStream(chunks: seq<Bytes>, start: nat, end: nat) returns (out: seq<Bytes>)
    requires start <= end
    ensures Flat(out) == Window(Flat(Delivered(chunks)), start - Aligned(start), end - start + 1)
    ensures forall i :: 0 <= i < |out| ==> out[i] != []
  {
    AlignedOffset(start);
    out := SkipAndTrim(chunks, start - Aligned(start), end - start + 1);
  }

  /** The cached-file generator; a read may return fewer bytes than it was asked for. */
  method RangeFileStream(file: Bytes, start: nat, end: nat) returns (out: seq<Bytes>)
    requires start <= end < |file|
    ensures Flat(out) == file[start..end + 1]
    ensures forall i :: 0 <= i < |out| ==> 0 < |out[i]| <= 1024 * 1024
  {
    var bytesToRead := end - start + 1;
    out := [];
    var position := start;
    while bytesToRead > 0
      invariant start <= position == end + 1 - bytesToRead <= end + 1
      invariant Flat(out) == file[start..position]
      invariant forall i :: 0 <= i < |out| ==> 0 < |out[i]| <= READ_SIZE
    {
      var readLen := Min(bytesToRead, READ_SIZE);
      var got :| 0 < got <= readLen;
      var data := file[position..position + got];
      FlatAppend(out, data);
      assert file[start..position] + data == file[start..position + got];
      position := position + got;
      bytesToRead := bytesToRead - |data|;
      out := out + [data];
    }
  }

  // ----- What the client gets

  /** The chunks are the file from the aligned offset on, with no empty one among them. */
  ghost predicate Downloads(chunks: seq<Bytes>, file: Bytes, start: nat) {
    && Aligned(start) <= |file|
    && Flat(chunks) == file[Aligned(start)..]
    && forall i :: 0 <= i < |chunks| ==> chunks[i] != []
  }

  lemma SliceOfRest(file: Bytes, a: nat, from: nat, to: nat)
    requires a <= from <= to <= |file|
    ensures file[a..][from - a..to - a] == file[from..to]
  {
  }

  /** For every file, every range and every split of the download, the Telegram path
      sends exactly the requested bytes, as many as Content-Length says. */
  lemma TelethonExact(chunks: seq<Bytes>, file: Bytes, start: nat, end: nat)
    requires start <= end < |file| && Downloads(chunks, file, start)
    ensures var sent := Window(Flat(Delivered(chunks)), start - Aligned(start), end - start + 1);
            sent == file[start..end + 1] && |sent| == end - start + 1
  {
    AlignedOffset(start);
    DeliveredAll(chunks);
    var a := Aligned(start);
    SliceOfRest(file, a, start, end + 1);
  }

  lemma WindowOfPrefix(d: Bytes, all: Bytes, from: nat, n: nat)
    requires d <= all && from + n <= |all|
    ensures Window(d, from, n) <= all[from..from + n]
    ensures n > 0 ==> (Window(d, from, n) == all[from..from + n] <==> from + n <= |d|)
  {
    assert d == all[..|d|];
    if |d| > from {
      assert Drop(d, from) == all[from..|d|];
      assert from + n < |d| ==> all[from..|d|][..n] == all[from..from + n];
    }
  }

  lemma PrefixWindow(d: Bytes, file: Bytes, a: nat, start: nat, end: nat)
    requires a <= start <= end < |file| && d <= file[a..]
    ensures var sent := Window(d, start - a, end - start + 1);
            sent <= file[start..end + 1] && (sent == file[start..end + 1] <==> end < a + |d|)
  {
    WindowOfPrefix(d, file[a..], start - a, end - start + 1);
    SliceOfRest(file, a, start, end + 1);
  }

  /** A download that ends early leaves the response short, by exactly the bytes that
      did not arrive: the range is complete if and only if its last byte arrived. */
  lemma TelethonTruncated(chunks: seq<Bytes>, file: Bytes, start: nat, end: nat)
    requires start <= end < |file|
    requires Flat(Delivered(chunks)) <= file[Aligned(start)..]
    ensures var got := Aligned(start) + |Flat(Delivered(chunks))|;
            var sent := Window(Flat(Delivered(chunks)), start - Aligned(start), end - start + 1);
            && sent <= file[start..end + 1]
            && (sent == file[start..end + 1] <==> end < got)
  {
    AlignedOffset(start);
    PrefixWindow(Flat(Delivered(chunks)), file, Aligned(start), start, end);
  }

  // ----- The endpoint

  /** Where the bytes come from: the cached file, or a download that arrives in chunks. */
  datatype Source = Cached | Telegram(chunks: seq<Bytes>)

  datatype Response = Response(start: int, end: int, size: nat, contentLength: int, body: seq<Bytes>)

  /** The download delivers the file from the aligned offset on, split in any way. */
  ghost predicate Serves(src: Source, file: Bytes, start: nat) {
    src.Telegram? ==> Downloads(src.chunks, file, start)
  }

  /** A header without a first position starts at the beginning. */
  function First(first: Option<nat>): nat {
    if first.Some? then first.value else 0
  }

  /** Either generator. */
  method Generate(file: Bytes, start: nat, end: nat, src: Source) returns (body: seq<Bytes>)
    requires start <= end < |file| && Serves(src, file, start)
    ensures Flat(body) == file[start..end + 1]
    ensures forall i :: 0 <= i < |body| ==> body[i] != []
  {
    if src.Cached? {
      body := RangeFileStream(file, start, end);
    } else {
      TelethonExact(src.chunks, file, start, end);
      body := TelethonStream(src.chunks, start, end);
    }
  }

  /** One request: from the two numbers of the header through the bounds and either
      generator to the body. The body is the file between the announced positions and as
      long as Content-Length announces; for a header with a first position, or none at
      all, these positions are exactly the selected ones. */
  method StreamVideo(file: Bytes, first: Option<nat>, last: Option<nat>, src: Source) returns (r: Response)
    requires file != [] && (first.Some? ==> first.value < |file| && (last.Some? ==> first.value <= last.value))
    requires Serves(src, file, First(first))
    ensures (r.start, r.end) == Bounds(first, last, |file|) && 0 <= r.start <= r.end < r.size == |file|
    ensures first.Some? || last.None? ==>
              forall k :: 0 <= k < |file| ==> (Selected(First(first), last, k) <==> r.start <= k <= r.end)
    ensures Flat(r.body) == file[r.start..r.end + 1] && r.contentLength == |Flat(r.body)| > 0
    ensures forall i :: 0 <= i < |r.body| ==> r.body[i] != []
  {
    var (start, end) := Bounds(first, last, |file|);
    var body := Generate(file, start, end, src);
    r := Response(start, end, |file|, end - start + 1, body);
  }

  /** The cut points of a tiling: increasing, from zero to the size. */
  predicate Tiling(cuts: seq<nat>, size: nat) {
    |cuts| >= 1 && cuts[0] == 0 && cuts[|cuts| - 1] == size && forall i :: 0 <= i < |cuts| - 1 ==> cuts[i] < cuts[i + 1]
  }

  lemma {:induction false} Increasing(cuts: seq<nat>, size: nat, i: nat)
    requires Tiling(cuts, size) && i < |cuts|
    ensures cuts[i] <= size
    decreases |cuts| - i
  {
    if i < |cuts| - 1 {
      Increasing(cuts, size, i + 1);
    }
  }

  /** All the bytes of some responses, one after the other. */
  function Received(rs: seq<Response>): Bytes {
    if rs == [] then [] else Received(rs[..|rs| - 1]) + Flat(rs[|rs| - 1].body)
  }

  lemma NextTile(file: Bytes, rs: seq<Response>, r: Response, from: nat, to: nat)
    requires from < to <= |file| && Received(rs) == file[..from] && Flat(r.body) == file[from..to]
    ensures Received(rs + [r]) == file[..to]
  {
    assert (rs + [r])[..|rs|] == rs;
    assert file[..from] + file[from..to] == file[..to];
  }

  /** The request for one tile. */
  method StreamTile(file: Bytes, from: nat, to: nat, src: Source) returns (r: Response)
    requires from < to <= |file| && Serves(src, file, from)
    ensures r.start == from && r.contentLength == to - from && Flat(r.body) == file[from..to]
  {
    r := StreamVideo(file, Some(from), Some(to - 1), src);
    assert r.end + 1 == to;
  }

  /** A client that asks for consecutive ranges, each served from the cache or from a
      download split in any way, receives the file. */
  method StreamTiles(file: Bytes, cuts: seq<nat>, sources: seq<Source>) returns (rs: seq<Response>)
    requires Tiling(cuts, |file|) && |sources| == |cuts| - 1
    requires forall i :: 0 <= i < |sources| ==> Serves(sources[i], file, cuts[i])
    ensures |rs| == |cuts| - 1 && Received(rs) == file
    ensures forall i :: 0 <= i < |rs| ==> rs[i].start == cuts[i] && rs[i].contentLength == cuts[i + 1] - cuts[i]
  {
    rs := [];
    for i := 0 to |sources|
      invariant |rs| == i && cuts[i] <= |file| && Received(rs) == file[..cuts[i]]
      invariant forall k :: 0 <= k < i ==> rs[k].start == cuts[k] && rs[k].contentLength == cuts[k + 1] - cuts[k]
    {
      Increasing(cuts, |file|, i + 1);
      var r := StreamTile(file, cuts[i], cuts[i + 1], sources[i]);
      NextTile(file, rs, r, cuts[i], cuts[i + 1]);
      rs := rs + [r];
    }
  }
}
