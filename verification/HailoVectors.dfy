/** What a run's vectors are in plain terms: which tokens a vector is the mean
    of, and that a normalized one has length 1. */
module HailoVectors {
  import opened Arith
  import opened HailoFrames

  /** Past a stream's range a value is written as the nearer end of it. */
  lemma PutClamps(s: Stream, x: real)
    requires s.Valid()
    ensures x / s.scale + s.zeroPoint <= 0.0 ==> Put(s, x) == 0
    ensures x / s.scale + s.zeroPoint >= s.Top() as real ==> Put(s, x) == s.Top()
    ensures s.Top() == if s.elementBytes == 1 then 255 else 65535
  {
    var y := x / s.scale + s.zeroPoint;
    assert Nearbyint(y) as real <= y + 0.5 && Nearbyint(y) as real >= y - 0.5;
  }

  /** Rounding is to the nearest, and to the even one when two are as near. */
  lemma RoundsToEven(x: real)
    ensures var n := Nearbyint(x) as real - x;
      -0.5 <= n <= 0.5 && (n == 0.5 || n == -0.5 ==> Nearbyint(x) % 2 == 0)
  {
  }

  // ---- What is pooled ----

  /** ts is the tokens of [start, end) that the mask keeps, in order. */
  ghost predicate Keeps(ts: seq<nat>, mask: seq<int>, start: nat, end: nat)
    requires start <= end <= |mask|
  {
    && (forall i, j :: 0 <= i < j < |ts| ==> ts[i] < ts[j])
    && (forall t: nat :: t in ts <==> start <= t < end && mask[t] != 0)
  }

  /** Value h of a token, as the stream's numbers say it. */
  predicate ValueIs(d: Desc, states: seq<Elem>, t: nat, h: nat, x: real) {
    0 <= t * d.hidden + h < |states|
    && x == (states[t * d.hidden + h] as real - d.states.zeroPoint) * d.states.scale
  }

  /** xs is value h of each of the tokens. */
  ghost predicate ValuesAre(d: Desc, states: seq<Elem>, ts: seq<nat>, h: nat, xs: seq<real>) {
    |xs| == |ts| && forall i :: 0 <= i < |ts| ==> ValueIs(d, states, ts[i], h, xs[i])
  }

  function Total(xs: seq<real>): real {
    if xs == [] then 0.0 else Total(xs[..|xs| - 1]) + xs[|xs| - 1]
  }

  /** x is the mean of value h over the tokens. */
  ghost predicate MeanIs(d: Desc, states: seq<Elem>, ts: seq<nat>, h: nat, x: real) {
    exists xs :: ValuesAre(d, states, ts, h, xs) && x * |ts| as real == Total(xs)
  }

  /** v is what a run pools of a row's states over the tokens [start, end). */
  ghost predicate PooledAs(d: Desc, states: seq<Elem>, mask: seq<int>, pooling: Pooling, start: nat, end: nat,
                           v: seq<real>)
    requires start <= end <= |mask|
  {
    && |v| == d.hidden
    && match pooling
       case PoolMean =>
         exists ts :: Keeps(ts, mask, start, end)
           && (ts != [] ==> forall h: nat :: h < d.hidden ==> MeanIs(d, states, ts, h, v[h]))
       case PoolCls => forall h: nat :: h < d.hidden ==> ValueIs(d, states, 0, h, v[h])
       case PoolLast =>
         exists t: nat :: LastKept(mask, end, t) && forall h: nat :: h < d.hidden ==> ValueIs(d, states, t, h, v[h])
  }

  /** t is the last of the first n tokens that the mask keeps, or 0 when it
      keeps none of them. */
  ghost predicate LastKept(mask: seq<int>, n: nat, t: nat)
    requires n <= |mask|
  {
    || (t < n && mask[t] != 0 && forall i :: t < i < n ==> mask[i] == 0)
    || (t == 0 && forall i :: 0 <= i < n ==> mask[i] == 0)
  }

  function KeptFrom(mask: seq<int>, start: nat, end: nat): seq<nat>
    requires start <= end <= |mask|
  {
    if start == end then [] else KeptFrom(mask, start, end - 1) + (if mask[end - 1] != 0 then [end - 1] else [])
  }

  lemma OneMoreKept(ts: seq<nat>, mask: seq<int>, start: nat, end: nat)
    requires start < end <= |mask| && Keeps(ts, mask, start, end - 1)
    ensures mask[end - 1] != 0 ==> Keeps(ts + [end - 1], mask, start, end)
    ensures mask[end - 1] == 0 ==> Keeps(ts, mask, start, end)
  {
    var more := ts + [end - 1];
    assert forall t: nat :: t in more <==> t in ts || t == end - 1;
    assert forall i :: 0 <= i < |ts| ==> ts[i] in ts && more[i] == ts[i];
  }

  lemma {:induction false} KeptIsKept(mask: seq<int>, start: nat, end: nat)
    requires start <= end <= |mask|
    ensures Keeps(KeptFrom(mask, start, end), mask, start, end)
    ensures |KeptFrom(mask, start, end)| == Live(mask, start, end)
  {
    if start < end {
      KeptIsKept(mask, start, end - 1);
      OneMoreKept(KeptFrom(mask, start, end - 1), mask, start, end);
    }
  }

  /** The values of the tokens kept, and that their total is the sum. */
  lemma {:induction false} KeptValues(d: Desc, states: seq<Elem>, mask: seq<int>, start: nat, end: nat, h: nat)
    returns (xs: seq<real>)
    requires |states| == d.RowsLen() && h < d.hidden && start <= end <= |mask| && end <= d.frame
    ensures ValuesAre(d, states, KeptFrom(mask, start, end), h, xs)
    ensures Total(xs) == SumLive(d, states, mask, start, end, h)
  {
    hide ValueIs, Value;
    xs := [];
    if start < end {
      xs := KeptValues(d, states, mask, start, end - 1, h);
      if mask[end - 1] != 0 {
        ValueIsValue(d, states, end - 1, h);
        var x := Value(d, states, end - 1, h);
        assert (xs + [x])[..|xs|] == xs;
        xs := xs + [x];
      }
    }
  }

  lemma ValueIsValue(d: Desc, states: seq<Elem>, t: nat, h: nat)
    requires |states| == d.RowsLen() && t < d.frame && h < d.hidden
    ensures ValueIs(d, states, t, h, Value(d, states, t, h))
  {
    Join(t, h, d.frame, d.hidden);
  }

  lemma MeanIsTheMean(d: Desc, states: seq<Elem>, mask: seq<int>, start: nat, end: nat)
    requires |states| == d.RowsLen() && start <= end <= |mask| && end <= d.frame
    ensures PooledAs(d, states, mask, PoolMean, start, end, MeanOf(d, states, mask, start, end))
  {
    hide Keeps, Live, SumLive, MeanIs, Quotient;
    var v, ts := MeanOf(d, states, mask, start, end), KeptFrom(mask, start, end);
    KeptIsKept(mask, start, end);
    if ts != [] {
      forall h: nat | h < d.hidden
        ensures MeanIs(d, states, ts, h, v[h])
      {
        ColumnIsTheMean(d, states, mask, start, end, h);
      }
    }
  }

  lemma ColumnIsTheMean(d: Desc, states: seq<Elem>, mask: seq<int>, start: nat, end: nat, h: nat)
    requires |states| == d.RowsLen() && start <= end <= |mask| && end <= d.frame && h < d.hidden
    requires KeptFrom(mask, start, end) != []
    ensures MeanIs(d, states, KeptFrom(mask, start, end), h, MeanOf(d, states, mask, start, end)[h])
  {
    hide Keeps, Live, SumLive, ValuesAre, Total, KeptFrom;
    var ts := KeptFrom(mask, start, end);
    var xs := KeptValues(d, states, mask, start, end, h);
    KeptIsKept(mask, start, end);
    TimesBack(Total(xs), |ts| as real, MeanOf(d, states, mask, start, end)[h]);
    assert ValuesAre(d, states, ts, h, xs);
  }

  lemma TimesBack(a: real, b: real, q: real)
    requires b != 0.0 && q == a / b
    ensures q * b == a
  {
  }

  lemma RowIsPooled(d: Desc, w: Task, mask: seq<int>, states: seq<Elem>)
    requires |mask| == w.len && 1 <= w.len <= d.frame && |states| == d.RowsLen()
    ensures PooledAs(d, states, mask, w.pooling, 0, w.len, RowPooled(d, w, mask, states))
  {
    hide MeanOf, Keeps, MeanIs, ValueIs, Value;
    match w.pooling {
      case PoolMean => MeanIsTheMean(d, states, mask, 0, w.len);
      case PoolCls =>
        forall h: nat | h < d.hidden
          ensures ValueIs(d, states, 0, h, Value(d, states, 0, h))
        {
          ValueIsValue(d, states, 0, h);
        }
      case PoolLast =>
        var t := LastLive(mask, w.len);
        NoneKept(mask, w.len);
        assert LastKept(mask, w.len, t);
        forall h: nat | h < d.hidden
          ensures ValueIs(d, states, t, h, Value(d, states, t, h))
        {
          ValueIsValue(d, states, t, h);
        }
    }
  }

  lemma {:induction false} NoneKept(mask: seq<int>, n: nat)
    requires n <= |mask|
    ensures (forall i :: 0 <= i < n ==> mask[i] == 0) ==> LastLive(mask, n) == 0
  {
    if n > 0 {
      NoneKept(mask, n - 1);
    }
  }

  // ---- The cut and the norm ----

  function Squares(v: seq<real>): real {
    if v == [] then 0.0 else Squares(v[..|v| - 1]) + v[|v| - 1] * v[|v| - 1]
  }

  /** u is v cut to dim, and when normalized each value divided by the length
      of that, or by 1e-12 when the length is less. */
  ghost predicate CutAndNormed(d: Desc, u: seq<real>, v: seq<real>, dim: nat, normalize: bool) {
    && |u| == dim <= |v|
    && (!normalize ==> u == v[..dim])
    && (normalize ==>
          var r := d.root(Squares(v[..dim]));
          if r > 0.000000000001 then forall h :: 0 <= h < dim ==> u[h] * r == v[h]
          else forall h :: 0 <= h < dim ==> u[h] == v[h] * 1000000000000.0)
  }

  lemma {:induction false} SquaresAgree(v: seq<real>, n: nat)
    requires n <= |v|
    ensures SquaresTo(v, n) == Squares(v[..n])
  {
    if n > 0 {
      SquaresAgree(v, n - 1);
      assert v[..n][..n - 1] == v[..n - 1];
    }
  }

  lemma FinishedAt(d: Desc, v: seq<real>, dim: nat, normalize: bool, h: nat)
    requires h < dim <= |v|
    ensures Finished(d, v, dim, normalize)[h] == v[h] * Scale(d, v, dim, normalize)
  {
    hide Scale;
  }

  lemma FinishedIsCutAndNormed(d: Desc, v: seq<real>, dim: nat, normalize: bool)
    requires dim <= |v|
    ensures CutAndNormed(d, Finished(d, v, dim, normalize), v, dim, normalize)
  {
    hide SquaresTo, Squares, Finished;
    var u, r := Finished(d, v, dim, normalize), d.root(Squares(v[..dim]));
    SquaresAgree(v, dim);
    forall h | 0 <= h < dim
      ensures !normalize ==> u[h] == v[h]
      ensures normalize && r > 0.000000000001 ==> u[h] * r == v[h]
      ensures normalize && r <= 0.000000000001 ==> u[h] == v[h] * 1000000000000.0
    {
      FinishedAt(d, v, dim, normalize, h);
      if normalize && r > 0.000000000001 {
        Divided(v[h], r, u[h]);
      }
    }
    assert !normalize ==> u == v[..dim];
  }

  lemma Divided(x: real, r: real, q: real)
    requires r != 0.0 && q == x * (1.0 / r)
    ensures q * r == x
  {
    var i := 1.0 / r;
    assert i * r == 1.0;
    assert q * r == x * (i * r);
  }

  /** A vector that is normalized has length 1 and points where the pooled
      values do, whenever their length has a root above the least divisor. */
  lemma NormalizedHasLengthOne(d: Desc, u: seq<real>, v: seq<real>, dim: nat)
    requires CutAndNormed(d, u, v, dim, true)
    requires var n := Squares(v[..dim]); d.root(n) * d.root(n) == n && d.root(n) > 0.000000000001
    ensures Squares(u) == 1.0
    ensures exists c :: Multiple(u, v, c)
  {
    hide Squares, Multiple;
    var n, r := Squares(v[..dim]), d.root(Squares(v[..dim]));
    SquaresScale(u, v[..dim], r);
    OneLeft(Squares(u), n, r, r * r);
    DividedIsMultiple(u, v, r);
  }

  lemma DividedIsMultiple(u: seq<real>, v: seq<real>, r: real)
    requires r > 0.0 && |u| <= |v| && forall h :: 0 <= h < |u| ==> u[h] * r == v[h]
    ensures exists c :: Multiple(u, v, c)
  {
    var c := 1.0 / r;
    OneOver(r, c);
    forall h | 0 <= h < |u|
      ensures u[h] == c * v[h]
    {
      TimesOne(u[h], c, r, v[h]);
    }
    assert Multiple(u, v, c);
  }

  lemma OneOver(r: real, c: real)
    requires r > 0.0 && c == 1.0 / r
    ensures c * r == 1.0 && c > 0.0
  {
  }

  /** u is the first values of v, each times the same positive number. */
  predicate Multiple(u: seq<real>, v: seq<real>, c: real) {
    c > 0.0 && |u| <= |v| && forall h :: 0 <= h < |u| ==> u[h] == c * v[h]
  }

  lemma OneLeft(a: real, n: real, r: real, square: real)
    requires r > 0.0 && square == r * r && a * square == n && square == n
    ensures a == 1.0
  {
    Positive(r, r, square);
    DivideBy(a, square);
  }

  lemma DivideBy(a: real, n: real)
    requires n > 0.0 && a * n == n
    ensures a == 1.0
  {
    assert (a * n) / n == a;
  }

  lemma Positive(a: real, b: real, p: real)
    requires a > 0.0 && b > 0.0 && p == a * b
    ensures p > 0.0
  {
  }

  lemma TimesOne(x: real, c: real, r: real, y: real)
    requires c * r == 1.0 && x * r == y
    ensures x == c * y
  {
    assert c * y == c * (x * r) == (c * r) * x;
  }

  lemma {:induction false} SquaresScale(u: seq<real>, v: seq<real>, r: real)
    requires |u| == |v| && forall h :: 0 <= h < |u| ==> u[h] * r == v[h]
    ensures Squares(u) * (r * r) == Squares(v)
  {
    if u != [] {
      var m := |u| - 1;
      SquaresScale(u[..m], v[..m], r);
      SquareOf(u[m], v[m], r);
      Sums(Squares(u[..m]), u[m] * u[m], r * r);
    }
  }

  lemma SquareOf(x: real, y: real, r: real)
    requires x * r == y
    ensures (x * x) * (r * r) == y * y
  {
    assert (x * x) * (r * r) == (x * r) * (x * r);
  }

  lemma Sums(a: real, b: real, c: real)
    ensures (a + b) * c == a * c + b * c
  {
  }

  // ---- The vector at an index ----

  /** v is what the run pools for index i from its row's hidden states: over
      the range's tokens when ranges were written, else over the row's. */
  ghost predicate Pools(d: Desc, w: Task, i: nat, states: seq<Elem>, v: seq<real>)
    requires w.Valid(d) && i < w.Count()
  {
    if w.byRanges then
      && w.ranges[i].row < |w.mask| && w.ranges[i].start <= w.ranges[i].end <= |w.mask[w.ranges[i].row]|
      && PooledAs(d, states, w.mask[w.ranges[i].row], PoolMean, w.ranges[i].start, w.ranges[i].end, v)
    else PooledAs(d, states, w.mask[i], w.pooling, 0, w.len, v)
  }

  /** u is the vector the run owes at index i. */
  ghost predicate Delivers(d: Desc, w: Task, i: nat, states: seq<Elem>, u: seq<real>)
    requires w.Valid(d) && i < w.Count()
  {
    exists v :: Pools(d, w, i, states, v) && CutAndNormed(d, u, v, w.dim, w.normalize)
  }

  lemma VectorIsDelivered(d: Desc, w: Task, i: nat, states: seq<Elem>)
    requires w.Valid(d) && i < w.Count() && |states| == d.RowsLen()
    ensures Delivers(d, w, i, states, VectorOf(d, w, i, states))
  {
    hide PooledAs, CutAndNormed, MeanOf, RowPooled, Finished;
    var row := w.RowOf(i);
    assert w.byRanges ==> w.RangeOk(w.ranges[i]);
    var v := if w.byRanges then MeanOf(d, states, w.mask[row], w.ranges[i].start, w.ranges[i].end)
             else RowPooled(d, w, w.mask[row], states);
    if w.byRanges {
      MeanIsTheMean(d, states, w.mask[row], w.ranges[i].start, w.ranges[i].end);
    } else {
      RowIsPooled(d, w, w.mask[row], states);
    }
    assert Pools(d, w, i, states, v);
    FinishedIsCutAndNormed(d, v, w.dim, w.normalize);
  }

  /** The root of the values' squares is one, and above the least divisor. */
  predicate Rooted(d: Desc, v: seq<real>) {
    d.root(Squares(v)) * d.root(Squares(v)) == Squares(v) && d.root(Squares(v)) > 0.000000000001
  }

  /** A normalized vector has length 1 and points where the pooled values cut
      to its size do, when those have a length to divide by. */
  ghost predicate IsUnit(d: Desc, w: Task, i: nat, states: seq<Elem>, u: seq<real>)
    requires w.Valid(d) && i < w.Count()
  {
    w.normalize && (forall v :: Pools(d, w, i, states, v) ==> w.dim <= |v| && Rooted(d, v[..w.dim])) ==>
      Squares(u) == 1.0 && exists v, c :: Pools(d, w, i, states, v) && Multiple(u, v, c)
  }

  lemma DeliveredIsUnit(d: Desc, w: Task, i: nat, states: seq<Elem>, u: seq<real>)
    requires w.Valid(d) && i < w.Count() && Delivers(d, w, i, states, u)
    ensures IsUnit(d, w, i, states, u)
  {
    hide Pools, Squares, Multiple;
    if w.normalize && forall v :: Pools(d, w, i, states, v) ==> w.dim <= |v| && Rooted(d, v[..w.dim]) {
      var v :| Pools(d, w, i, states, v) && CutAndNormed(d, u, v, w.dim, w.normalize);
      NormalizedHasLengthOne(d, u, v, w.dim);
    }
  }

  /** What the run owes at an index is what it pools there, cut and normed. */
  lemma OwedIsDelivered(d: Desc, encode: (seq<Elem>, seq<Elem>) -> seq<Elem>, w: Task, i: nat)
    requires w.Valid(d) && i < w.Count()
    ensures var states := StatesOf(d, encode, w, w.RowOf(i));
      Delivers(d, w, i, states, Owed(d, encode, w, i)) && IsUnit(d, w, i, states, Owed(d, encode, w, i))
  {
    hide Delivers, IsUnit, StatesOf, VectorOf;
    var states := StatesOf(d, encode, w, w.RowOf(i));
    VectorIsDelivered(d, w, i, states);
    DeliveredIsUnit(d, w, i, states, Owed(d, encode, w, i));
  }
}
