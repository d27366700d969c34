/** bench/src/ranges.rs: the text tokens of each row cut into chunks, the chunks
    as rows of their own, and the turns the timed runs take. */
module ChunkRanges {
  import opened Arith

  const U32 := 0x1_0000_0000

  datatype Range = Range(row: nat, start: nat, end: nat)

  datatype Result<T> = Ok(value: T) | Err

  function Least(a: nat, b: nat): nat { if a < b then a else b }

  /** saturating_add of 32-bit numbers. */
  function Saturated(a: nat, b: nat): nat { Least(a + b, U32 - 1) }

  /** The chunks a row of seq tokens has. */
  function PerRow(seq_: nat, chunk: nat): nat
    requires chunk > 0 && seq_ >= 3
  {
    (seq_ - 2 + chunk - 1) / chunk
  }

  /** Chunk i of a row: positions 1 to seq - 1, chunk at a time. */
  function Chunk(row: nat, seq_: nat, chunk: nat, i: nat): Range
    requires seq_ >= 3
  {
    Range(row, 1 + i * chunk, Least(1 + (i + 1) * chunk, seq_ - 1))
  }

  function RowChunks(row: nat, seq_: nat, chunk: nat, n: nat): (r: seq<Range>)
    requires seq_ >= 3
    ensures |r| == n && forall i :: 0 <= i < n ==> r[i] == Chunk(row, seq_, chunk, i)
  {
    seq(n, i requires 0 <= i < n => Chunk(row, seq_, chunk, i))
  }

  function AllChunks(rows: nat, seq_: nat, chunk: nat): seq<Range>
    requires chunk > 0 && seq_ >= 3
  {
    if rows == 0 then []
    else AllChunks(rows - 1, seq_, chunk) + RowChunks(rows - 1, seq_, chunk, PerRow(seq_, chunk))
  }

  method ChunkRanges(batch: nat, seq_: nat, chunk: nat) returns (r: Result<seq<Range>>)
    requires seq_ < U32 && chunk < U32
    ensures r.Err? <==> chunk == 0 || seq_ < 3
    ensures r.Ok? ==> r.value == AllChunks(batch, seq_, chunk)
  {
    if chunk == 0 || seq_ < 3 {
      return Err;
    }
    var out: seq<Range> := [];
    for row := 0 to batch
      invariant out == AllChunks(row, seq_, chunk)
    {
      ghost var done := out;
      ghost var i := 0;
      var start := 1;
      while start < seq_ - 1
        invariant start == Least(1 + i * chunk, seq_ - 1) && 0 <= i
        invariant i > 0 ==> 1 + (i - 1) * chunk < seq_ - 1
        invariant out == done + RowChunks(row, seq_, chunk, i)
        decreases seq_ - start
      {
        var end := Least(Saturated(start, chunk), seq_ - 1);
        Distribute(i, chunk);
        assert Chunk(row, seq_, chunk, i) == Range(row, start, end);
        assert RowChunks(row, seq_, chunk, i + 1) == RowChunks(row, seq_, chunk, i) + [Range(row, start, end)];
        out := out + [Range(row, start, end)];
        start := end;
        i := i + 1;
      }
      CountFound(seq_, chunk, i);
    }
    r := Ok(out);
  }

  lemma CountFound(seq_: nat, chunk: nat, i: nat)
    requires chunk > 0 && seq_ >= 3 && 1 + i * chunk >= seq_ - 1
    requires i > 0 ==> 1 + (i - 1) * chunk < seq_ - 1
    ensures i == PerRow(seq_, chunk)
  {
    var a := seq_ - 2 + chunk - 1;
    var q := a / chunk;
    assert a == q * chunk + a % chunk;
    Distribute(i, chunk);
    Distribute(i - 1, chunk);
    Distribute(q, chunk);
    if i > 0 {
      MulLtCancels(i, q + 1, chunk);
    }
    MulLtCancels(q, i + 1, chunk);
  }

  /** Each text position of a row is in one chunk of it, and only there; each
      chunk has one, and starts where the one before ended. */
  lemma ChunksPartitionTheText(seq_: nat, chunk: nat, row: nat, p: nat, i: nat)
    requires chunk > 0 && seq_ >= 3 && i < PerRow(seq_, chunk)
    ensures var c := Chunk(row, seq_, chunk, i);
      && 1 <= c.start < c.end <= seq_ - 1 && c.end - c.start <= chunk
      && (i == 0 ==> c.start == 1) && (i + 1 < PerRow(seq_, chunk) ==> c.end == Chunk(row, seq_, chunk, i + 1).start)
      && (i + 1 == PerRow(seq_, chunk) ==> c.end == seq_ - 1)
      && (1 <= p < seq_ - 1 ==> (c.start <= p < c.end <==> i == (p - 1) / chunk))
    ensures 1 <= p < seq_ - 1 ==> (p - 1) / chunk < PerRow(seq_, chunk)
  {
    var n := PerRow(seq_, chunk);
    LastStart(seq_, chunk, i);
    if i + 1 < n {
      LastStart(seq_, chunk, i + 1);
    }
    Distribute(i, chunk);
    if 1 <= p < seq_ - 1 {
      ChunkOfPosition(seq_, chunk, i, p);
    }
    if i + 1 == n {
      CountCovers(seq_, chunk);
    }
  }

  lemma ChunkOfPosition(seq_: nat, chunk: nat, i: nat, p: nat)
    requires chunk > 0 && seq_ >= 3 && 1 <= p < seq_ - 1
    ensures i * chunk <= p - 1 < i * chunk + chunk <==> i == (p - 1) / chunk
    ensures (p - 1) / chunk < PerRow(seq_, chunk)
  {
    hide PerRow;
    var q := (p - 1) / chunk;
    assert p - 1 == q * chunk + (p - 1) % chunk;
    Distribute(q, chunk);
    if i * chunk <= p - 1 < i * chunk + chunk {
      DivModUnique(i, p - 1 - i * chunk, chunk);
    }
    CountAbove(seq_, chunk, q);
  }

  lemma LastStart(seq_: nat, chunk: nat, i: nat)
    requires chunk > 0 && seq_ >= 3 && i < PerRow(seq_, chunk)
    ensures 1 + i * chunk < seq_ - 1
  {
    var a, n := seq_ - 2 + chunk - 1, PerRow(seq_, chunk);
    assert a == n * chunk + a % chunk;
    MulLe(i + 1, n, chunk);
    Distribute(i, chunk);
  }

  lemma CountCovers(seq_: nat, chunk: nat)
    requires chunk > 0 && seq_ >= 3
    ensures 1 + PerRow(seq_, chunk) * chunk >= seq_ - 1
  {
    var a := seq_ - 2 + chunk - 1;
    assert a == PerRow(seq_, chunk) * chunk + a % chunk;
  }

  lemma CountAbove(seq_: nat, chunk: nat, q: nat)
    requires chunk > 0 && seq_ >= 3 && 1 + q * chunk < seq_ - 1
    ensures q < PerRow(seq_, chunk)
  {
    CountCovers(seq_, chunk);
    MulLtCancels(q, PerRow(seq_, chunk), chunk);
  }

  // ---- Chunks as rows ----

  /** A range inside a row of the batch. */
  predicate Inside(r: Range, batch: nat, seq_: nat) { r.row < batch && r.start <= r.end <= seq_ }

  lemma RowInside(batch: nat, seq_: nat, row: nat)
    requires row < batch
    ensures row * seq_ + seq_ <= batch * seq_
  {
    MulLe(row + 1, batch, seq_);
    Distribute(row, seq_);
  }

  /** Row `row` of the batch. */
  function RowOf(ids: seq<int>, seq_: nat, row: nat): (r: seq<int>)
    requires row * seq_ + seq_ <= |ids|
    ensures |r| == seq_
  {
    ids[row * seq_..row * seq_ + seq_]
  }

  /** A range's tokens. */
  function Text(ids: seq<int>, batch: nat, seq_: nat, r: Range): (t: seq<int>)
    requires |ids| == batch * seq_ && Inside(r, batch, seq_)
    ensures |t| == r.end - r.start
  {
    RowInside(batch, seq_, r.row);
    RowOf(ids, seq_, r.row)[r.start..r.end]
  }

  function Copies(n: nat, v: int): (s: seq<int>)
    ensures |s| == n
  {
    seq(n, _ => v)
  }

  /** A range as a row: the row's first token, the range's, the row's last, and
      padding to the width. */
  function ChunkRow(ids: seq<int>, batch: nat, seq_: nat, r: Range, width: nat, pad: int): (row: seq<int>)
    requires |ids| == batch * seq_ && seq_ > 0 && Inside(r, batch, seq_) && r.end - r.start + 2 <= width
    ensures |row| == width
  {
    RowInside(batch, seq_, r.row);
    var row := RowOf(ids, seq_, r.row);
    [row[0]] + Text(ids, batch, seq_, r) + [row[seq_ - 1]] + Copies(width - (r.end - r.start) - 2, pad)
  }

  function Mask(r: Range, width: nat): (m: seq<int>)
    requires r.start <= r.end && r.end - r.start + 2 <= width
    ensures |m| == width
  {
    Copies(r.end - r.start + 2, 1) + Copies(width - (r.end - r.start) - 2, 0)
  }

  function Widest(ranges: seq<Range>): (w: nat)
    ensures forall i :: 0 <= i < |ranges| && ranges[i].start <= ranges[i].end ==> ranges[i].end - ranges[i].start <= w
  {
    if ranges == [] then 0
    else
      var r, w := ranges[|ranges| - 1], Widest(ranges[..|ranges| - 1]);
      if r.start <= r.end && r.end - r.start > w then r.end - r.start else w
  }

  /** The chunks' rows and masks, each `width` wide, one after another. */
  ghost predicate RowsWritten(ids: seq<int>, batch: nat, seq_: nat, ranges: seq<Range>, pad: int, width: nat,
                              out: seq<int>, mask: seq<int>, n: nat)
    requires |ids| == batch * seq_ && seq_ > 0 && n <= |ranges|
    requires forall i :: 0 <= i < |ranges| ==>
      Inside(ranges[i], batch, seq_) && ranges[i].end - ranges[i].start + 2 <= width
  {
    && |out| == |mask| == n * width
    && forall i :: 0 <= i < n ==>
         i * width + width <= n * width
         && out[i * width..i * width + width] == ChunkRow(ids, batch, seq_, ranges[i], width, pad)
         && mask[i * width..i * width + width] == Mask(ranges[i], width)
  }

  method ChunkRows(ids: seq<int>, batch: nat, seq_: nat, ranges: seq<Range>, pad: int)
    returns (width: nat, out: seq<int>, mask: seq<int>)
    requires |ids| == batch * seq_ && seq_ > 0 && forall i :: 0 <= i < |ranges| ==> Inside(ranges[i], batch, seq_)
    ensures width == Widest(ranges) + 2
    ensures RowsWritten(ids, batch, seq_, ranges, pad, width, out, mask, |ranges|)
  {
    hide RowsWritten, ChunkRow, Mask;
    width := Widest(ranges) + 2;
    out, mask := [], [];
    NoRowsWritten(ids, batch, seq_, ranges, pad, width);
    for i := 0 to |ranges|
      invariant RowsWritten(ids, batch, seq_, ranges, pad, width, out, mask, i)
    {
      RowWritten(ids, batch, seq_, ranges, pad, width, out, mask, i);
      out := out + ChunkRow(ids, batch, seq_, ranges[i], width, pad);
      mask := mask + Mask(ranges[i], width);
    }
  }

  lemma NoRowsWritten(ids: seq<int>, batch: nat, seq_: nat, ranges: seq<Range>, pad: int, width: nat)
    requires |ids| == batch * seq_ && seq_ > 0
    requires forall i :: 0 <= i < |ranges| ==>
      Inside(ranges[i], batch, seq_) && ranges[i].end - ranges[i].start + 2 <= width
    ensures RowsWritten(ids, batch, seq_, ranges, pad, width, [], [], 0)
  {
  }

  lemma RowWritten(ids: seq<int>, batch: nat, seq_: nat, ranges: seq<Range>, pad: int, width: nat,
                   out: seq<int>, mask: seq<int>, n: nat)
    requires |ids| == batch * seq_ && seq_ > 0 && n < |ranges|
    requires forall i :: 0 <= i < |ranges| ==>
      Inside(ranges[i], batch, seq_) && ranges[i].end - ranges[i].start + 2 <= width
    requires RowsWritten(ids, batch, seq_, ranges, pad, width, out, mask, n)
    ensures RowsWritten(ids, batch, seq_, ranges, pad, width,
                        out + ChunkRow(ids, batch, seq_, ranges[n], width, pad), mask + Mask(ranges[n], width), n + 1)
  {
    hide ChunkRow, Mask;
    Distribute(n, width);
    var row, m := ChunkRow(ids, batch, seq_, ranges[n], width, pad), Mask(ranges[n], width);
    forall i | 0 <= i < n + 1
      ensures i * width + width <= (n + 1) * width
      ensures (out + row)[i * width..i * width + width] == ChunkRow(ids, batch, seq_, ranges[i], width, pad)
      ensures (mask + m)[i * width..i * width + width] == Mask(ranges[i], width)
    {
      if i < n {
        InFirst(out, row, i * width, width);
        InFirst(mask, m, i * width, width);
      } else {
        InSecond(out, row, n * width, width);
        InSecond(mask, m, n * width, width);
      }
    }
  }

  lemma InFirst<T>(a: seq<T>, b: seq<T>, x: nat, n: nat)
    requires x + n <= |a|
    ensures (a + b)[x..x + n] == a[x..x + n]
  {
  }

  lemma InSecond<T>(a: seq<T>, b: seq<T>, x: nat, n: nat)
    requires x == |a| && n == |b|
    ensures (a + b)[x..x + n] == b
  {
  }

  /** The texts of a row's first n chunks, in order. */
  function Texts(ids: seq<int>, batch: nat, seq_: nat, chunk: nat, row: nat, n: nat): seq<int>
    requires |ids| == batch * seq_ && seq_ >= 3 && chunk > 0 && row < batch && n <= PerRow(seq_, chunk)
  {
    if n == 0 then []
    else
      ChunksPartitionTheText(seq_, chunk, row, 0, n - 1);
      Texts(ids, batch, seq_, chunk, row, n - 1) + Text(ids, batch, seq_, Chunk(row, seq_, chunk, n - 1))
  }

  lemma {:induction false} TextsSoFar(ids: seq<int>, batch: nat, seq_: nat, chunk: nat, row: nat, n: nat)
    requires |ids| == batch * seq_ && seq_ >= 3 && chunk > 0 && row < batch && 0 < n <= PerRow(seq_, chunk)
    ensures row * seq_ + seq_ <= |ids| && Chunk(row, seq_, chunk, n - 1).end <= seq_
      && Chunk(row, seq_, chunk, n - 1).end >= 1
    ensures Texts(ids, batch, seq_, chunk, row, n) == RowOf(ids, seq_, row)[1..Chunk(row, seq_, chunk, n - 1).end]
  {
    hide Chunk, PerRow, RowOf;
    RowInside(batch, seq_, row);
    ChunksPartitionTheText(seq_, chunk, row, 0, n - 1);
    var r, c := RowOf(ids, seq_, row), Chunk(row, seq_, chunk, n - 1);
    assert c.row == row by { ChunkIsOfRow(row, seq_, chunk, n - 1); }
    if n > 1 {
      TextsSoFar(ids, batch, seq_, chunk, row, n - 1);
      ChunksPartitionTheText(seq_, chunk, row, 0, n - 2);
      Joined(r, 1, c.start, c.end);
    } else {
      assert Texts(ids, batch, seq_, chunk, row, 0) == [];
    }
  }

  lemma ChunkIsOfRow(row: nat, seq_: nat, chunk: nat, i: nat)
    requires seq_ >= 3
    ensures Chunk(row, seq_, chunk, i).row == row
  {
  }

  lemma Joined<T>(s: seq<T>, a: nat, b: nat, c: nat)
    requires a <= b <= c <= |s|
    ensures s[a..b] + s[b..c] == s[a..c]
  {
  }

  /** A row's chunks, end to end, are its text: all but its first and last token. */
  lemma TheChunksAreTheText(ids: seq<int>, batch: nat, seq_: nat, chunk: nat, row: nat)
    requires |ids| == batch * seq_ && seq_ >= 3 && chunk > 0 && row < batch
    ensures PerRow(seq_, chunk) > 0 && row * seq_ + seq_ <= |ids|
    ensures Texts(ids, batch, seq_, chunk, row, PerRow(seq_, chunk)) == RowOf(ids, seq_, row)[1..seq_ - 1]
  {
    CountAbove(seq_, chunk, 0);
    var n := PerRow(seq_, chunk);
    TextsSoFar(ids, batch, seq_, chunk, row, n);
    ChunksPartitionTheText(seq_, chunk, row, 0, n - 1);
  }

  // ---- Frames ----

  function Frames(n: nat, size: nat): nat
    requires size > 0
  {
    (n + size - 1) / size
  }

  /** Rows a to b of n, each w wide. */
  function Frame(ids: seq<int>, n: nat, w: nat, a: nat, b: nat): seq<int>
    requires |ids| == n * w && a <= b <= n
  {
    MulLe(0, a, w);
    MulLe(a, b, w);
    MulLe(b, n, w);
    ids[a * w..b * w]
  }

  /** The first f frames, end to end: frame i is rows i * size to (i + 1) * size,
      or to the last. */
  function Framed(ids: seq<int>, n: nat, w: nat, size: nat, f: nat): seq<int>
    requires |ids| == n * w && size > 0 && f <= Frames(n, size)
  {
    if f == 0 then []
    else
      FrameStarts(n, size, f - 1);
      Framed(ids, n, w, size, f - 1) + Frame(ids, n, w, (f - 1) * size, Least(f * size, n))
  }

  lemma FrameStarts(n: nat, size: nat, f: nat)
    requires size > 0 && f < Frames(n, size)
    ensures 0 <= f * size < n && f * size <= (f + 1) * size
  {
    var q := Frames(n, size);
    assert n + size - 1 == q * size + (n + size - 1) % size;
    MulLe(f + 1, q, size);
    Distribute(f, size);
  }

  lemma FramesCover(n: nat, size: nat)
    requires size > 0
    ensures Frames(n, size) * size >= n
  {
    assert n + size - 1 == Frames(n, size) * size + (n + size - 1) % size;
  }

  lemma {:induction false} FramedSoFar(ids: seq<int>, n: nat, w: nat, size: nat, f: nat, b: nat)
    requires |ids| == n * w && size > 0 && f <= Frames(n, size) && b == Least(f * size, n)
    ensures Framed(ids, n, w, size, f) == Frame(ids, n, w, 0, b)
  {
    hide Frame, Frames;
    if f == 0 {
      NoFrame(ids, n, w);
    } else {
      FrameStarts(n, size, f - 1);
      var a := (f - 1) * size;
      FramedSoFar(ids, n, w, size, f - 1, a);
      FrameJoined(ids, n, w, a, b);
    }
  }

  lemma NoFrame(ids: seq<int>, n: nat, w: nat)
    requires |ids| == n * w
    ensures Frame(ids, n, w, 0, 0) == []
  {
  }

  lemma FrameJoined(ids: seq<int>, n: nat, w: nat, a: nat, b: nat)
    requires |ids| == n * w && a <= b <= n
    ensures Frame(ids, n, w, 0, a) + Frame(ids, n, w, a, b) == Frame(ids, n, w, 0, b)
  {
    MulLe(0, a, w);
    MulLe(a, b, w);
    MulLe(b, n, w);
    Joined(ids, 0, a * w, b * w);
  }

  lemma TheFramesAreTheRows(ids: seq<int>, n: nat, w: nat, size: nat)
    requires |ids| == n * w && size > 0
    ensures Framed(ids, n, w, size, Frames(n, size)) == ids
  {
    FramesCover(n, size);
    FramedSoFar(ids, n, w, size, Frames(n, size), n);
    assert ids[0..n * w] == ids;
  }

  // ---- Turns ----

  /** The run at place k of round i. */
  function RunAt(n: nat, i: nat, k: nat): nat
    requires n > 0
  {
    (i + k) % n
  }

  /** The round, of the n from `first`, in which a run has place k. */
  function RoundOf(n: nat, first: nat, run: nat, k: nat): nat
    requires n > 0
  {
    first + (run - first - k) % n
  }

  /** In each round each run has one place, and over any n rounds on end each
      run has each place once. */
  lemma EachRunTakesEachPlaceOnce(n: nat, first: nat, run: nat, k: nat, i: nat)
    requires run < n && k < n && first <= i < first + n
    ensures first <= RoundOf(n, first, run, k) < first + n
    ensures RunAt(n, i, k) == run <==> i == RoundOf(n, first, run, k)
  {
    var j := RoundOf(n, first, run, k);
    Congruent(run - first - k, first + k, n);
    assert (j + k) % n == run;
    if (i + k) % n == run {
      SameTurn(i + k, j + k, n);
    }
  }

  lemma Congruent(a: int, b: int, n: nat)
    requires n > 0 && 0 <= a + b < n
    ensures (a % n + b) % n == a + b
  {
    var q := a / n;
    assert a % n + b == (a + b) - q * n;
    DivModUnique(-q, a + b, n);
  }

  /** Numbers less than n apart that leave the same remainder are one. */
  lemma SameTurn(a: int, b: int, n: nat)
    requires n > 0 && a % n == b % n && a < b + n && b < a + n
    ensures a == b
  {
    var p, q := a / n, b / n;
    assert a - b == p * n - q * n;
    Distribute(q, n);
    Distribute(p, n);
    if p > q {
      MulLe(q + 1, p, n);
    } else if p < q {
      MulLe(p + 1, q, n);
    }
  }

  // ---- A row spelt out ----

  /** The rows are as wide as the longest range and its two ends. */
  lemma {:induction false} WidestIsOne(ranges: seq<Range>)
    requires forall i :: 0 <= i < |ranges| ==> ranges[i].start <= ranges[i].end
    ensures ranges != [] ==> exists i :: 0 <= i < |ranges| && ranges[i].end - ranges[i].start == Widest(ranges)
    ensures ranges == [] ==> Widest(ranges) == 0
  {
    if ranges != [] {
      var m := |ranges| - 1;
      WidestIsOne(ranges[..m]);
      if i :| 0 <= i < m && ranges[..m][i].end - ranges[..m][i].start == Widest(ranges[..m]) {
        assert ranges[i].end - ranges[i].start == Widest(ranges[..m]);
      }
      if ranges[m].end - ranges[m].start > Widest(ranges[..m]) {
        assert Widest(ranges) == ranges[m].end - ranges[m].start;
      }
    }
  }

  /** The first token of the row the range is of, the range's tokens, the row's
      last token, then padding; the mask is 1 up to the padding. */
  lemma AChunkRowHolds(ids: seq<int>, batch: nat, seq_: nat, r: Range, width: nat, pad: int, k: nat)
    requires |ids| == batch * seq_ && seq_ > 0 && Inside(r, batch, seq_) && r.end - r.start + 2 <= width && k < width
    ensures 0 <= r.row * seq_ && r.row * seq_ + seq_ <= |ids|
    ensures var row, n, at := ChunkRow(ids, batch, seq_, r, width, pad), r.end - r.start, r.row * seq_;
      row[k] == if k == 0 then ids[at] else if k <= n then ids[at + r.start + (k - 1)]
                else if k == n + 1 then ids[at + seq_ - 1] else pad
    ensures Mask(r, width)[k] == if k < r.end - r.start + 2 then 1 else 0
  {
    RowInside(batch, seq_, r.row);
    MulLe(0, r.row, seq_);
    var n, at := r.end - r.start, r.row * seq_;
    var row := RowOf(ids, seq_, r.row);
    assert row[0] == ids[at] && row[seq_ - 1] == ids[at + seq_ - 1];
    if 1 <= k <= n {
      assert Text(ids, batch, seq_, r)[k - 1] == row[r.start + (k - 1)] == ids[at + (r.start + (k - 1))];
    }
  }

  /** Round i starts at run i mod n and takes the others in turn. */
  lemma TheTurns(n: nat, i: nat, k: nat)
    requires k < n
    ensures RunAt(n, i, 0) == i % n
    ensures RunAt(n, i, k) == if i % n + k < n then i % n + k else i % n + k - n
  {
    var q, r := i / n, i % n;
    assert i + k == q * n + (r + k);
    Distribute(q, n);
    if r + k < n {
      DivModUnique(q, r + k, n);
    } else {
      DivModUnique(q + 1, r + k - n, n);
    }
  }
}
