/** What a frame of the Hailo backend holds, and what is pooled out of one:
    the meaning that core/hailo/embed.cpp's loops are proved against.
    A frame is a sequence of integer elements; reals stand for floats. */
module HailoFrames {
  import opened Arith

  type Elem = int

  /** How a HEF stream lays out one element (embed.h, Stream). */
  datatype Stream = Stream(elementBytes: nat, scale: real, zeroPoint: real) {
    ghost predicate Valid() { scale > 0.0 && 1 <= elementBytes <= 2 }

    function Top(): (hi: int) { if elementBytes == 2 then 65535 else 255 }
  }

  /** The model a session runs. `root` stands for the square root, and
      `nothing` for the quotient 0/0 of a mean over no token. */
  datatype Desc = Desc(
    vocab: nat, hidden: nat, heads: nat, frame: nat, table: seq<real>,
    rows: Stream, bias: Stream, states: Stream,
    root: real -> real, nothing: real)
  {
    ghost predicate Valid() {
      && |table| == vocab * hidden
      && rows.Valid() && bias.Valid() && states.Valid()
    }

    function RowsLen(): nat { frame * hidden }
    function BiasLen(): nat { frame * (heads * frame) }
    function RowsBytes(): nat { RowsLen() * rows.elementBytes }
    function BiasBytes(): nat { BiasLen() * bias.elementBytes }
    function StatesBytes(): nat { RowsLen() * states.elementBytes }
  }

  const MASKED := -100.0

  /** Round to nearest, ties to even. */
  function Nearbyint(x: real): int {
    var f := x.Floor;
    var d := x - f as real;
    if d < 0.5 then f else if d > 0.5 then f + 1 else if f % 2 == 0 then f else f + 1
  }

  /** A float in the stream's integer type, held to its range. */
  function Put(s: Stream, x: real): (e: Elem)
    requires s.scale > 0.0
    ensures 0 <= e <= s.Top()
  {
    var v := Nearbyint(x / s.scale + s.zeroPoint);
    var low := if v < 0 then 0 else v;
    if low > s.Top() then s.Top() else low
  }

  function Get(s: Stream, q: Elem): real {
    (q as real - s.zeroPoint) * s.scale
  }

  /** A value inside the stream's range comes back within half a step. */
  lemma QuantizedWithinHalfAStep(s: Stream, x: real)
    requires s.Valid()
    requires 0.0 <= x / s.scale + s.zeroPoint <= s.Top() as real
    ensures -s.scale / 2.0 <= Get(s, Put(s, x)) - x <= s.scale / 2.0
  {
    var y := x / s.scale + s.zeroPoint;
    var q := Nearbyint(y);
    assert Put(s, x) == q && -0.5 <= q as real - y <= 0.5;
    assert y - s.zeroPoint == x / s.scale;
    StepError(q as real - s.zeroPoint, y - s.zeroPoint, s.scale, Get(s, q), x);
  }

  lemma StepError(q: real, y: real, scale: real, got: real, x: real)
    requires -0.5 <= q - y <= 0.5 && scale > 0.0
    requires got == q * scale && y == x / scale
    ensures -scale / 2.0 <= got - x <= scale / 2.0
  {
    var e := q - y;
    assert y * scale == x;
    assert got - x == e * scale;
    NonNegative(0.5 - e, scale);
    NonNegative(e + 0.5, scale);
  }

  lemma NonNegative(a: real, b: real)
    requires a >= 0.0 && b >= 0.0
    ensures a * b >= 0.0
  {
  }

  // ---- The frame a row is written as (Session::fill) ----

  /** The id whose word row stands at token t: past the written length the
      frame repeats the first id. */
  function TokenId(ids: seq<int>, t: nat): int
    requires |ids| > 0
  {
    if t < |ids| then ids[t] else ids[0]
  }

  ghost predicate IdsIn(d: Desc, ids: seq<int>) {
    |ids| > 0 && forall t :: 0 <= t < |ids| ==> 0 <= ids[t] < d.vocab
  }

  lemma TableIndex(d: Desc, id: int, h: int)
    requires 0 <= id < d.vocab && 0 <= h < d.hidden
    ensures 0 <= id * d.hidden + h < d.vocab * d.hidden
  {
    Join(id, h, d.vocab, d.hidden);
  }

  /** Value h of the word row of token t. */
  function WordValue(d: Desc, ids: seq<int>, t: nat, h: nat): real
    requires d.Valid() && IdsIn(d, ids) && h < d.hidden
  {
    TableIndex(d, TokenId(ids, t), h);
    d.table[TokenId(ids, t) * d.hidden + h]
  }

  function RowsFrame(d: Desc, ids: seq<int>): (f: seq<Elem>)
    requires d.Valid() && IdsIn(d, ids)
  {
    seq(d.RowsLen(), i requires 0 <= i < d.RowsLen() =>
      Split(i, d.frame, d.hidden);
      Put(d.rows, WordValue(d, ids, i / d.hidden, i % d.hidden)))
  }

  /** 0 for a key the mask keeps, MASKED for one it drops or past its end. */
  function KeyBias(mask: seq<int>, k: nat): real {
    if k < |mask| && mask[k] != 0 then 0.0 else MASKED
  }

  /** Laid out [query, head * key]: the same line of keys for each head of
      each query. */
  function BiasFrame(d: Desc, mask: seq<int>): (f: seq<Elem>)
    requires d.Valid()
  {
    seq(d.BiasLen(), i requires 0 <= i < d.BiasLen() =>
      BiasLenPositive(d);
      Put(d.bias, KeyBias(mask, i % d.frame)))
  }

  lemma BiasLenPositive(d: Desc)
    ensures d.BiasLen() > 0 ==> d.frame > 0
  {
  }

  // ---- The vectors pooled out of a frame (Session::pool, mean, put_vector) ----

  datatype Pooling = PoolMean | PoolCls | PoolLast

  datatype Range = Range(row: nat, start: nat, end: nat)

  /** One write: the session's copy of the rows, and the ranges when it was
      a write of ranges. */
  datatype Task = Task(
    ids: seq<seq<int>>, mask: seq<seq<int>>, len: nat,
    pooling: Pooling, normalize: bool, dim: nat,
    byRanges: bool, ranges: seq<Range>)
  {
    ghost predicate Valid(d: Desc) {
      && d.Valid()
      && 1 <= len <= d.frame && dim <= d.hidden
      && |ids| == |mask|
      && (forall b :: 0 <= b < |ids| ==> |ids[b]| == len && IdsIn(d, ids[b]))
      && (forall b :: 0 <= b < |mask| ==> |mask[b]| == len)
      && (byRanges ==> pooling == PoolMean && 0 < |ranges|)
      && (byRanges ==> forall i :: 0 <= i < |ranges| ==> RangeOk(ranges[i]))
    }

    ghost predicate RangeOk(g: Range) {
      && g.row < |mask| && g.start < g.end <= len && |mask[g.row]| == len
      && 1 in mask[g.row][g.start..g.end]
    }

    /** How many vectors the run gives, and the row each is pooled from. */
    function Count(): nat { if byRanges then |ranges| else |ids| }

    function RowOf(i: nat): nat
      requires i < Count()
    {
      if byRanges then ranges[i].row else i
    }
  }

  function Value(d: Desc, states: seq<Elem>, t: nat, h: nat): real
    requires |states| == d.RowsLen() && t < d.frame && h < d.hidden
  {
    Join(t, h, d.frame, d.hidden);
    Get(d.states, states[t * d.hidden + h])
  }

  /** The tokens of [start, end) the mask keeps, and the sum of their values. */
  function Live(mask: seq<int>, start: nat, end: nat): nat
    requires start <= end <= |mask|
  {
    if start == end then 0 else Live(mask, start, end - 1) + (if mask[end - 1] != 0 then 1 else 0)
  }

  function SumLive(d: Desc, states: seq<Elem>, mask: seq<int>, start: nat, end: nat, h: nat): real
    requires |states| == d.RowsLen() && h < d.hidden
    requires start <= end <= |mask| && end <= d.frame
  {
    if start == end then 0.0
    else
      SumLive(d, states, mask, start, end - 1, h) +
      (if mask[end - 1] != 0 then Value(d, states, end - 1, h) else 0.0)
  }

  function Quotient(d: Desc, sum: real, live: nat): real {
    if live == 0 then d.nothing else sum / live as real
  }

  function MeanOf(d: Desc, states: seq<Elem>, mask: seq<int>, start: nat, end: nat): (v: seq<real>)
    requires |states| == d.RowsLen()
    requires start <= end <= |mask| && end <= d.frame
    ensures |v| == d.hidden
  {
    seq(d.hidden, h requires 0 <= h < d.hidden =>
      Quotient(d, SumLive(d, states, mask, start, end, h), Live(mask, start, end)))
  }

  /** The last token the mask keeps, 0 when it keeps none. */
  function LastLive(mask: seq<int>, n: nat): (t: nat)
    requires n <= |mask|
    ensures n > 0 ==> t < n
    ensures n == 0 ==> t == 0
    ensures forall i :: t < i < n ==> mask[i] == 0
    ensures (exists i :: 0 <= i < n && mask[i] != 0) ==> mask[t] != 0
  {
    if n == 0 then 0 else if mask[n - 1] != 0 then n - 1 else LastLive(mask, n - 1)
  }

  /** A row's values before the cut and the norm. */
  function RowPooled(d: Desc, w: Task, mask: seq<int>, states: seq<Elem>): (v: seq<real>)
    requires |mask| == w.len && 1 <= w.len <= d.frame && |states| == d.RowsLen()
    ensures |v| == d.hidden
  {
    match w.pooling
    case PoolMean => MeanOf(d, states, mask, 0, w.len)
    case PoolCls => seq(d.hidden, h requires 0 <= h < d.hidden => Value(d, states, 0, h))
    case PoolLast =>
      var t := LastLive(mask, w.len);
      seq(d.hidden, h requires 0 <= h < d.hidden => Value(d, states, t, h))
  }

  function SquaresTo(v: seq<real>, n: nat): real
    requires n <= |v|
  {
    if n == 0 then 0.0 else SquaresTo(v, n - 1) + v[n - 1] * v[n - 1]
  }

  function Scale(d: Desc, v: seq<real>, dim: nat, normalize: bool): real
    requires dim <= |v|
  {
    if !normalize then 1.0
    else
      var r := d.root(SquaresTo(v, dim));
      1.0 / (if r > 0.000000000001 then r else 0.000000000001)
  }

  /** Cut to dim values and normalized. */
  function Finished(d: Desc, v: seq<real>, dim: nat, normalize: bool): (u: seq<real>)
    requires dim <= |v|
    ensures |u| == dim
  {
    seq(dim, h requires 0 <= h < dim => v[h] * Scale(d, v, dim, normalize))
  }

  /** Vector i of the write, given the hidden states of its row. */
  function VectorOf(d: Desc, w: Task, i: nat, states: seq<Elem>): (u: seq<real>)
    requires w.Valid(d) && i < w.Count() && |states| == d.RowsLen()
    ensures |u| == w.dim
  {
    var row := w.RowOf(i);
    var v := if w.byRanges then MeanOf(d, states, w.mask[row], w.ranges[i].start, w.ranges[i].end)
             else RowPooled(d, w, w.mask[row], states);
    Finished(d, v, w.dim, w.normalize)
  }

  /** The hidden states the device gives for row b's frame. */
  function StatesOf(d: Desc, encode: (seq<Elem>, seq<Elem>) -> seq<Elem>, w: Task, b: nat): (s: seq<Elem>)
    requires w.Valid(d) && b < |w.ids|
    ensures |s| == d.RowsLen()
  {
    Fit(encode(RowsFrame(d, w.ids[b]), BiasFrame(d, w.mask[b])), d.RowsLen())
  }

  /** The vector the run owes at index i. */
  function Owed(d: Desc, encode: (seq<Elem>, seq<Elem>) -> seq<Elem>, w: Task, i: nat): (u: seq<real>)
    requires w.Valid(d) && i < w.Count()
    ensures |u| == w.dim
  {
    VectorOf(d, w, i, StatesOf(d, encode, w, w.RowOf(i)))
  }

  /** Whatever the device writes into n elements. */
  function Fit(s: seq<Elem>, n: nat): (r: seq<Elem>)
    ensures |r| == n
    ensures |s| == n ==> r == s
  {
    seq(n, i requires 0 <= i < n => if i < |s| then s[i] else 0)
  }

  lemma {:induction false} LiveCounts(mask: seq<int>, start: nat, end: nat)
    requires start <= end <= |mask|
    ensures Live(mask, start, end) > 0 <==> exists t :: start <= t < end && mask[t] != 0
  {
    if start < end {
      LiveCounts(mask, start, end - 1);
      if mask[end - 1] == 0 && Live(mask, start, end) > 0 {
        var t :| start <= t < end - 1 && mask[t] != 0;
      }
    }
  }

  /** A range that write_ranges accepts is never a mean over nothing. */
  lemma AcceptedRangeHasATerm(w: Task, d: Desc, i: nat)
    requires w.Valid(d) && w.byRanges && i < |w.ranges|
    ensures var g := w.ranges[i]; Live(w.mask[g.row], g.start, g.end) > 0
  {
    var g := w.ranges[i];
    assert w.RangeOk(g);
    var m := w.mask[g.row];
    var k :| 0 <= k < |m[g.start..g.end]| && m[g.start..g.end][k] == 1;
    assert m[g.start + k] != 0;
    LiveCounts(m, g.start, g.end);
  }

  /** A range over a whole row gives the row's own mean, whatever the device
      computes. */
  lemma WholeRowRangeIsTheRow(d: Desc, encode: (seq<Elem>, seq<Elem>) -> seq<Elem>, rows: Task, ranged: Task, i: nat)
    requires rows.Valid(d) && !rows.byRanges && rows.pooling == PoolMean
    requires ranged.Valid(d) && ranged.byRanges && i < |ranged.ranges|
    requires ranged.(byRanges := false, ranges := rows.ranges) == rows
    requires ranged.ranges[i].start == 0 && ranged.ranges[i].end == ranged.len
    ensures Owed(d, encode, ranged, i) == Owed(d, encode, rows, ranged.ranges[i].row)
  {
    assert ranged.RangeOk(ranged.ranges[i]);
    assert ranged.ids == rows.ids && ranged.mask == rows.mask;
  }
}
