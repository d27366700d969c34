/** The loops that fill a frame in place and pool one that came back
    (Session::fill, mean, put_vector). */
module HailoFill {
  import opened Arith
  import opened HailoFrames
  import opened HailoDevice
  import opened HailoVectors

  lemma RowsFrameAt(d: Desc, ids: seq<int>, t: nat, h: nat)
    requires d.Valid() && IdsIn(d, ids) && t < d.frame && h < d.hidden
    ensures 0 <= t * d.hidden + h < d.RowsLen()
    ensures RowsFrame(d, ids)[t * d.hidden + h] == Put(d.rows, WordValue(d, ids, t, h))
  {
    Join(t, h, d.frame, d.hidden);
  }

  /** The frame of word rows, value by value. */
  method FillRows(dev: Device, d: Desc, a: Addr, ids: seq<int>)
    requires dev.Valid() && d.Valid() && IdsIn(d, ids)
    requires a in dev.mem && |dev.mem[a]| == d.RowsLen() && !Owned(dev.jobs, a)
    modifies dev`mem
    ensures dev.Valid() && dev.mem == old(dev.mem)[a := RowsFrame(d, ids)]
  {
    hide RowsFrame, Owned, Separate;
    ghost var want := RowsFrame(d, ids);
    assert |want| == d.RowsLen() by {
      RowsFrameLen(d, ids);
    }
    for t := 0 to d.frame
      invariant dev.Valid() && a in dev.mem && dev.mem == old(dev.mem)[a := dev.mem[a]]
      invariant |dev.mem[a]| == |want| && 0 <= t * d.hidden <= |want|
      invariant forall i :: 0 <= i < t * d.hidden ==> dev.mem[a][i] == want[i]
    {
      Distribute(t, d.hidden);
      MulLe(t + 1, d.frame, d.hidden);
      for h := 0 to d.hidden
        invariant dev.Valid() && a in dev.mem && dev.mem == old(dev.mem)[a := dev.mem[a]]
        invariant |dev.mem[a]| == |want|
        invariant forall i :: 0 <= i < t * d.hidden + h ==> dev.mem[a][i] == want[i]
      {
        RowsFrameAt(d, ids, t, h);
        dev.Store(a, t * d.hidden + h, Put(d.rows, WordValue(d, ids, t, h)));
      }
    }
    assert dev.mem[a] == want;
  }

  lemma RowsFrameLen(d: Desc, ids: seq<int>)
    requires d.Valid() && IdsIn(d, ids)
    ensures |RowsFrame(d, ids)| == d.RowsLen()
  {
  }

  lemma BiasFrameIs(d: Desc, mask: seq<int>)
    requires d.Valid()
    ensures |BiasFrame(d, mask)| == d.BiasLen() == d.frame * (d.heads * d.frame)
    ensures d.BiasLen() > 0 ==> d.frame > 0
    ensures forall i :: 0 <= i < d.BiasLen() ==> BiasFrame(d, mask)[i] == Put(d.bias, KeyBias(mask, i % d.frame))
  {
  }

  /** Where head p's key q stands in a line. */
  function KeyAt(d: Desc, p: nat, q: nat): (i: nat)
    requires p < d.heads && q < d.frame
    ensures i < d.heads * d.frame && i / d.frame == p && i % d.frame == q
  {
    Join(p, q, d.heads, d.frame);
    p * d.frame + q
  }

  /** The lines of the other queries repeat the first. */
  lemma LineRepeats(d: Desc, q: nat, j: nat)
    requires q < d.frame && j < d.heads * d.frame
    ensures (q * (d.heads * d.frame) + j) % d.frame == j % d.frame
  {
    Split(j, d.heads, d.frame);
    var a, b := j / d.frame, j % d.frame;
    assert q * (d.heads * d.frame) == (q * d.heads) * d.frame;
    Regroup(q * d.heads, a, b, d.frame);
    DivModUnique(q * d.heads + a, b, d.frame);
  }

  lemma Regroup(x: int, a: int, b: int, m: int)
    ensures (x + a) * m + b == x * m + (a * m + b)
  {
  }

  /** The first query's line of keys, then a copy of it for each other. */
  method FillBias(dev: Device, d: Desc, a: Addr, mask: seq<int>)
    requires dev.Valid() && d.Valid()
    requires a in dev.mem && |dev.mem[a]| == d.BiasLen() && !Owned(dev.jobs, a)
    modifies dev`mem
    ensures dev.Valid() && dev.mem == old(dev.mem)[a := BiasFrame(d, mask)]
  {
    hide BiasFrame, Owned, Separate;
    ghost var want := BiasFrame(d, mask);
    BiasFrameIs(d, mask);
    var line := d.heads * d.frame;
    if d.frame > 0 {
      MulLe(1, d.frame, line);
      FillLine(dev, d, a, mask);
    }
    assert d.frame == 0 ==> |want| == 0;
    for q := 1 to if d.frame == 0 then 1 else d.frame
      invariant dev.Valid() && a in dev.mem && dev.mem == old(dev.mem)[a := dev.mem[a]]
      invariant |dev.mem[a]| == |want|
      invariant d.frame > 0 ==> 0 <= q * line <= |want|
      invariant d.frame > 0 ==> forall i :: 0 <= i < q * line ==> dev.mem[a][i] == want[i]
    {
      Distribute(q, line);
      MulLe(q + 1, d.frame, line);
      MulLe(1, q, line);
      ghost var was := dev.mem[a];
      dev.CopyWithin(a, q * line, 0, line);
      forall j | 0 <= j < line
        ensures want[q * line + j] == want[j]
      {
        LineRepeats(d, q, j);
      }
      assert forall i :: 0 <= i < q * line ==> dev.mem[a][i] == was[i];
      forall i | q * line <= i < (q + 1) * line
        ensures dev.mem[a][i] == want[i]
      {
        assert want[q * line + (i - q * line)] == want[i - q * line];
      }
    }
    assert dev.mem[a] == want;
  }

  method FillLine(dev: Device, d: Desc, a: Addr, mask: seq<int>)
    requires dev.Valid() && d.Valid() && d.frame > 0 && d.heads * d.frame <= d.BiasLen()
    requires a in dev.mem && |dev.mem[a]| == d.BiasLen() && !Owned(dev.jobs, a)
    modifies dev`mem
    ensures dev.Valid() && a in dev.mem && dev.mem == old(dev.mem)[a := dev.mem[a]]
    ensures |dev.mem[a]| == d.BiasLen()
    ensures forall i :: 0 <= i < d.heads * d.frame ==> dev.mem[a][i] == Put(d.bias, KeyBias(mask, i % d.frame))
  {
    hide Owned, Separate, Put, KeyBias, KeyAt;
    for k := 0 to d.frame
      invariant dev.Valid() && a in dev.mem && dev.mem == old(dev.mem)[a := dev.mem[a]]
      invariant |dev.mem[a]| == d.BiasLen()
      invariant forall p: nat, q: nat :: p < d.heads && q < k ==>
        dev.mem[a][KeyAt(d, p, q)] == Put(d.bias, KeyBias(mask, q))
    {
      var v := KeyBias(mask, k);
      for head := 0 to d.heads
        invariant dev.Valid() && a in dev.mem && dev.mem == old(dev.mem)[a := dev.mem[a]]
        invariant |dev.mem[a]| == d.BiasLen()
        invariant forall p: nat, q: nat :: p < d.heads && q < k ==>
          dev.mem[a][KeyAt(d, p, q)] == Put(d.bias, KeyBias(mask, q))
        invariant forall p: nat :: p < head ==> dev.mem[a][KeyAt(d, p, k)] == Put(d.bias, v)
      {
        dev.Store(a, KeyAt(d, head, k), Put(d.bias, v));
      }
    }
    forall i | 0 <= i < d.heads * d.frame
      ensures dev.mem[a][i] == Put(d.bias, KeyBias(mask, i % d.frame))
    {
      Split(i, d.heads, d.frame);
      KeyAtIs(d, i);
    }
  }

  lemma KeyAtIs(d: Desc, i: nat)
    requires d.frame > 0 && i / d.frame < d.heads
    ensures KeyAt(d, i / d.frame, i % d.frame) == i
  {
  }

  /** Element h of token t is h of the word row of the token's id; past the
      written ids, of the first id. */
  lemma RowsFrameHolds(d: Desc, ids: seq<int>, t: nat, h: nat)
    requires d.Valid() && IdsIn(d, ids) && t < d.frame && h < d.hidden
    ensures 0 <= t * d.hidden + h < |RowsFrame(d, ids)|
    ensures var id := if t < |ids| then ids[t] else ids[0];
      && 0 <= id * d.hidden + h < |d.table|
      && RowsFrame(d, ids)[t * d.hidden + h] == Put(d.rows, d.table[id * d.hidden + h])
  {
    hide RowsFrame, Put;
    RowsFrameLen(d, ids);
    RowsFrameAt(d, ids, t, h);
    TableIndex(d, if t < |ids| then ids[t] else ids[0], h);
  }

  /** For query q and head p, key k's bias is 0 when the mask keeps the key,
      and -100 when it drops it or ends before it. */
  lemma BiasFrameHolds(d: Desc, mask: seq<int>, q: nat, p: nat, k: nat)
    requires d.Valid() && q < d.frame && p < d.heads && k < d.frame
    ensures 0 <= q * (d.heads * d.frame) + (p * d.frame + k) < |BiasFrame(d, mask)|
    ensures BiasFrame(d, mask)[q * (d.heads * d.frame) + (p * d.frame + k)] ==
      if k < |mask| && mask[k] != 0 then Put(d.bias, 0.0) else Put(d.bias, -100.0)
  {
    hide BiasFrame, Put;
    BiasFrameIs(d, mask);
    Join(p, k, d.heads, d.frame);
    Join(q, p * d.frame + k, d.frame, d.heads * d.frame);
    LineRepeats(d, q, p * d.frame + k);
  }

  /** The mean of the kept tokens' values over [start, end), into sum. */
  method Mean(d: Desc, states: seq<Elem>, mask: seq<int>, start: nat, end: nat, sum: array<real>)
    requires sum.Length == d.hidden && |states| == d.RowsLen()
    requires start <= end <= |mask| && end <= d.frame
    modifies sum
    ensures sum[..] == MeanOf(d, states, mask, start, end)
    ensures PooledAs(d, states, mask, PoolMean, start, end, sum[..])
  {
    hide Value, PooledAs;
    MeanIsTheMean(d, states, mask, start, end);
    for h := 0 to d.hidden
      invariant forall i :: 0 <= i < h ==> sum[i] == 0.0
    {
      sum[h] := 0.0;
    }
    var live := 0;
    for t := start to end
      invariant live == Live(mask, start, t)
      invariant forall h :: 0 <= h < d.hidden ==> sum[h] == SumLive(d, states, mask, start, t, h)
    {
      if mask[t] == 0 {
        continue;
      }
      live := live + 1;
      for h := 0 to d.hidden
        invariant forall i :: 0 <= i < h ==> sum[i] == SumLive(d, states, mask, start, t + 1, i)
        invariant forall i :: h <= i < d.hidden ==> sum[i] == SumLive(d, states, mask, start, t, i)
      {
        sum[h] := sum[h] + Value(d, states, t, h);
      }
    }
    for h := 0 to d.hidden
      invariant forall i :: 0 <= i < h ==> sum[i] == Quotient(d, SumLive(d, states, mask, start, end, i), live)
      invariant forall i :: h <= i < d.hidden ==> sum[i] == SumLive(d, states, mask, start, end, i)
    {
      sum[h] := Quotient(d, sum[h], live);
    }
  }

  /** sum cut to dim and normalized, into out at `at`. */
  method PutVector(d: Desc, sum: array<real>, dim: nat, normalize: bool, out: array<real>, at: nat)
    requires dim <= sum.Length && at + dim <= out.Length && out != sum
    modifies out
    ensures out[..] == old(out[..])[..at] + Finished(d, sum[..], dim, normalize) + old(out[..])[at + dim..]
    ensures CutAndNormed(d, out[at..at + dim], sum[..], dim, normalize)
  {
    hide Scale, CutAndNormed;
    FinishedIsCutAndNormed(d, sum[..], dim, normalize);
    var scale := ScaleBy(d, sum, dim, normalize);
    ghost var f := Finished(d, sum[..], dim, normalize);
    assert forall i :: 0 <= i < dim ==> f[i] == sum[..][i] * scale;
    for h := 0 to dim
      invariant sum[..] == old(sum[..])
      invariant forall i :: 0 <= i < h ==> out[at + i] == f[i]
      invariant forall i :: 0 <= i < out.Length && !(at <= i < at + h) ==> out[i] == old(out[i])
    {
      assert f[h] == sum[..][h] * scale;
      out[at + h] := sum[h] * scale;
    }
    assert out[at..at + dim] == f;
  }

  method ScaleBy(d: Desc, sum: array<real>, dim: nat, normalize: bool) returns (scale: real)
    requires dim <= sum.Length
    ensures scale == Scale(d, sum[..], dim, normalize)
  {
    if !normalize {
      return 1.0;
    }
    var n := 0.0;
    for h := 0 to dim
      invariant n == SquaresTo(sum[..], h)
    {
      n := n + sum[h] * sum[h];
    }
    var r := d.root(n);
    scale := 1.0 / (if r > 0.000000000001 then r else 0.000000000001);
  }

  // ---- Packed vectors ----

  lemma LineFits(b: nat, lines: nat, stride: nat, len: nat)
    requires b < lines && len <= stride
    ensures 0 <= b * stride && b * stride + len <= lines * stride
  {
    MulLe(b + 1, lines, stride);
    Distribute(b, stride);
    MulLe(0, b, stride);
  }

  /** Vector i of n packed vectors of dim values. */
  function Vec(out: seq<real>, i: nat, n: nat, dim: nat): (v: seq<real>)
    requires i < n && n * dim <= |out|
    ensures |v| == dim
  {
    LineFits(i, n, dim, dim);
    out[i * dim..i * dim + dim]
  }

  lemma AVectorHolds(out: seq<real>, i: nat, n: nat, dim: nat, h: nat)
    requires i < n && n * dim <= |out| && h < dim
    ensures 0 <= i * dim + h < |out| && Vec(out, i, n, dim)[h] == out[i * dim + h]
  {
    LineFits(i, n, dim, dim);
  }

  /** What is past the first n vectors. */
  function Past(out: seq<real>, n: nat, dim: nat): seq<real> { if 0 <= n * dim <= |out| then out[n * dim..] else [] }

  lemma VecWritten(out: seq<real>, out': seq<real>, i: nat, n: nat, dim: nat, v: seq<real>)
    requires i < n && n * dim <= |out| && |v| == dim && 0 <= i * dim && i * dim + dim <= |out|
    requires out' == out[..i * dim] + v + out[i * dim + dim..]
    ensures |out'| == |out| && Past(out', n, dim) == Past(out, n, dim)
    ensures forall j :: 0 <= j < n ==> Vec(out', j, n, dim) == if j == i then v else Vec(out, j, n, dim)
  {
    LineFits(i, n, dim, dim);
    forall j | 0 <= j < n
      ensures Vec(out', j, n, dim) == if j == i then v else Vec(out, j, n, dim)
    {
      LineFits(j, n, dim, dim);
      if j < i {
        LineFits(j, i, dim, dim);
        Spliced(out, v, i * dim, j * dim, dim);
      } else if i < j {
        LineFits(i, j, dim, dim);
        Spliced(out, v, i * dim, j * dim, dim);
      } else {
        assert out'[i * dim..i * dim + dim] == v;
      }
    }
  }

  /** What is written at `at` leaves what is beside it. */
  lemma Spliced(out: seq<real>, v: seq<real>, at: nat, a: nat, n: nat)
    requires at + |v| <= |out| && a + n <= |out| && (a + n <= at || at + |v| <= a)
    ensures (out[..at] + v + out[at + |v|..])[a..a + n] == out[a..a + n]
  {
  }

  /** Each range of the row, to its own place in out. */
  method PoolRanges(d: Desc, ghost w: Task, states: seq<Elem>, mask: seq<int>, row: nat, ranges: seq<Range>,
                    dim: nat, normalize: bool, sum: array<real>, out: array<real>)
    requires w.Valid(d) && w.byRanges && w.ranges == ranges && w.dim == dim && w.normalize == normalize
    requires row < |w.mask| && mask == w.mask[row] && |states| == d.RowsLen() && sum.Length == d.hidden
    requires out != sum && |ranges| * dim <= out.Length
    modifies sum, out
    ensures forall i :: 0 <= i < |ranges| ==>
      Vec(out[..], i, |ranges|, dim) ==
      if ranges[i].row == row then VectorOf(d, w, i, states) else Vec(old(out[..]), i, |ranges|, dim)
    ensures Past(out[..], |ranges|, dim) == Past(old(out[..]), |ranges|, dim)
  {
    hide Vec, Past, MeanOf, Finished;
    for i := 0 to |ranges|
      invariant forall j :: 0 <= j < |ranges| ==>
        Vec(out[..], j, |ranges|, dim) ==
        if j < i && ranges[j].row == row then VectorOf(d, w, j, states) else Vec(old(out[..]), j, |ranges|, dim)
      invariant Past(out[..], |ranges|, dim) == Past(old(out[..]), |ranges|, dim)
    {
      var g := ranges[i];
      if g.row != row {
        continue;
      }
      assert w.RangeOk(w.ranges[i]);
      Mean(d, states, mask, g.start, g.end, sum);
      LineFits(i, |ranges|, dim, dim);
      ghost var was := out[..];
      PutVector(d, sum, dim, normalize, out, i * dim);
      VecWritten(was, out[..], i, |ranges|, dim, VectorOf(d, w, i, states));
    }
  }

  /** The row's pooled values, into sum. */
  method SumRow(d: Desc, ghost w: Task, states: seq<Elem>, mask: seq<int>, pooling: Pooling, len: nat, sum: array<real>)
    requires |mask| == w.len == len && 1 <= len <= d.frame && pooling == w.pooling
    requires |states| == d.RowsLen() && sum.Length == d.hidden
    modifies sum
    ensures sum[..] == RowPooled(d, w, mask, states)
    ensures PooledAs(d, states, mask, pooling, 0, len, sum[..])
  {
    hide Value, PooledAs;
    RowIsPooled(d, w, mask, states);
    if pooling == PoolMean {
      Mean(d, states, mask, 0, len, sum);
      return;
    }
    var t := 0;
    if pooling == PoolLast {
      for i := 0 to len
        invariant t == LastLive(mask, i)
      {
        if mask[i] != 0 {
          t := i;
        }
      }
    }
    for h := 0 to d.hidden
      invariant forall i :: 0 <= i < h ==> sum[i] == Value(d, states, t, i)
    {
      sum[h] := Value(d, states, t, h);
    }
  }

  /** The row's vector, at the row's place in out. */
  method PoolRow(d: Desc, ghost w: Task, states: seq<Elem>, mask: seq<int>, row: nat, pooling: Pooling, len: nat,
                 dim: nat, normalize: bool, sum: array<real>, out: array<real>)
    requires w.Valid(d) && !w.byRanges && w.len == len && w.dim == dim && w.normalize == normalize
    requires pooling == w.pooling
    requires row < |w.mask| && mask == w.mask[row] && |states| == d.RowsLen() && sum.Length == d.hidden
    requires out != sum && |w.ids| * dim <= out.Length
    modifies sum, out
    ensures forall i :: 0 <= i < |w.ids| ==>
      Vec(out[..], i, |w.ids|, dim) ==
      if i == row then VectorOf(d, w, i, states) else Vec(old(out[..]), i, |w.ids|, dim)
    ensures Past(out[..], |w.ids|, dim) == Past(old(out[..]), |w.ids|, dim)
  {
    hide Vec, Past, RowPooled, Finished;
    SumRow(d, w, states, mask, pooling, len, sum);
    LineFits(row, |w.ids|, dim, dim);
    ghost var was := out[..];
    PutVector(d, sum, dim, normalize, out, row * dim);
    VecWritten(was, out[..], row, |w.ids|, dim, VectorOf(d, w, row, states));
  }
}
