/** core/cuda/rotary.cpp's reordering of a layer's weights: Q and K rows taken
    pair-adjacent within each head, gate and up rows side by side. */
module RotaryRows {
  import opened Arith

  /** Row r of a matrix of rows h wide. */
  function Row(w: seq<real>, h: nat, r: nat): (row: seq<real>)
    requires r * h + h <= |w|
    ensures |row| == h
  {
    w[r * h..r * h + h]
  }

  lemma RowFits(n: nat, h: nat, r: nat)
    requires r < n
    ensures r * h + h <= n * h
  {
    MulLe(r + 1, n, h);
    Distribute(r, h);
  }

  /** The stored row that row r holds, heads hd wide: in each head of Q and K,
      rows 2c and 2c + 1 hold stored rows c and c + hd / 2. */
  function Source(h: nat, hd: nat, r: nat): nat
    requires hd > 0
  {
    if r < 2 * h then r / hd * hd + r % hd / 2 + r % hd % 2 * (hd / 2) else r
  }

  /** Where a stored row of Q or K goes. */
  function Dest(h: nat, hd: nat, o: nat): nat
    requires hd > 0
  {
    if o >= 2 * h then o
    else
      MulLe(0, o / hd, hd);
      if o % hd < hd / 2 then o / hd * hd + 2 * (o % hd) else o / hd * hd + 2 * (o % hd - hd / 2) + 1
  }

  /** A layer's heads: hidden is whole heads of an even width. */
  predicate Heads(h: nat, heads: nat, hd: nat) { heads > 0 && hd > 0 && hd % 2 == 0 && h == heads * hd }

  lemma InHead(h: nat, heads: nat, hd: nat, b: nat, j: nat)
    requires Heads(h, heads, hd) && b < 2 * heads && j < hd
    ensures b * hd + j < 2 * h && (b * hd + j) / hd == b && (b * hd + j) % hd == j
  {
    Join(b, j, 2 * heads, hd);
    assert 2 * heads * hd == 2 * h;
  }

  lemma SourceAt(h: nat, heads: nat, hd: nat, b: nat, c: nat, k: nat)
    requires Heads(h, heads, hd) && b < 2 * heads && c < hd / 2 && k < 2
    ensures Source(h, hd, b * hd + 2 * c + k) == b * hd + c + k * (hd / 2)
    ensures b * hd + 2 * c + k < 2 * h && b * hd + c + k * (hd / 2) < 2 * h
  {
    InHead(h, heads, hd, b, 2 * c + k);
    InHead(h, heads, hd, b, c + k * (hd / 2));
    assert (2 * c + k) / 2 == c && (2 * c + k) % 2 == k;
  }

  lemma HeadOf(h: nat, heads: nat, hd: nat, r: nat)
    requires Heads(h, heads, hd) && r < 2 * h
    ensures r / hd < 2 * heads && r % hd < hd && r == r / hd * hd + r % hd
  {
    assert 2 * h == 2 * heads * hd;
    Split(r, 2 * heads, hd);
  }

  lemma DestAt(h: nat, heads: nat, hd: nat, b: nat, c: nat, k: nat)
    requires Heads(h, heads, hd) && b < 2 * heads && c < hd / 2 && k < 2
    ensures Dest(h, hd, b * hd + c + k * (hd / 2)) == b * hd + 2 * c + k
  {
    InHead(h, heads, hd, b, c + k * (hd / 2));
  }

  /** Row r of head b holds stored row o. */
  lemma RowsPair(h: nat, heads: nat, hd: nat, b: nat, c: nat, k: nat, r: nat, o: nat)
    requires Heads(h, heads, hd) && b < 2 * heads && c < hd / 2 && k < 2
    requires r == b * hd + 2 * c + k && o == b * hd + c + k * (hd / 2)
    ensures r < 2 * h && o < 2 * h && Source(h, hd, r) == o && Dest(h, hd, o) == r && r / hd == o / hd == b
  {
    hide Source, Dest;
    SourceAt(h, heads, hd, b, c, k);
    DestAt(h, heads, hd, b, c, k);
    InHead(h, heads, hd, b, 2 * c + k);
    InHead(h, heads, hd, b, c + k * (hd / 2));
  }

  lemma SourceThenDest(h: nat, heads: nat, hd: nat, r: nat)
    requires Heads(h, heads, hd) && r < 2 * h
    ensures Source(h, hd, r) < 2 * h && Dest(h, hd, Source(h, hd, r)) == r && Source(h, hd, r) / hd == r / hd
  {
    hide Source, Dest;
    HeadOf(h, heads, hd, r);
    var b, c, k := r / hd, r % hd / 2, r % hd % 2;
    RowsPair(h, heads, hd, b, c, k, r, b * hd + c + k * (hd / 2));
  }

  lemma DestThenSource(h: nat, heads: nat, hd: nat, o: nat)
    requires Heads(h, heads, hd) && o < 2 * h
    ensures Dest(h, hd, o) < 2 * h && Source(h, hd, Dest(h, hd, o)) == o
  {
    hide Source, Dest;
    HeadOf(h, heads, hd, o);
    var b, j, half := o / hd, o % hd, hd / 2;
    MulLe(0, b, hd);
    if j < half {
      RowsPair(h, heads, hd, b, j, 0, b * hd + 2 * j, o);
    } else {
      RowsPair(h, heads, hd, b, j - half, 1, b * hd + 2 * (j - half) + 1, o);
    }
  }

  /** The reordering is a bijection that keeps each row in its head. */
  lemma ReorderingIsABijectionInEachHead(h: nat, heads: nat, hd: nat, r: nat)
    requires Heads(h, heads, hd) && r < 3 * h
    ensures Source(h, hd, r) < 3 * h && Dest(h, hd, Source(h, hd, r)) == r
    ensures Dest(h, hd, r) < 3 * h && Source(h, hd, Dest(h, hd, r)) == r
    ensures r < 2 * h ==> Source(h, hd, r) / hd == r / hd
  {
    if r < 2 * h {
      SourceThenDest(h, heads, hd, r);
      DestThenSource(h, heads, hd, r);
    }
  }

  // ---- The loops ----

  /** memcpy of n values. */
  method Memcpy(dst: array<real>, at: nat, src: seq<real>, from: nat, n: nat)
    requires at + n <= dst.Length && from + n <= |src|
    modifies dst
    ensures dst[..] == old(dst[..at]) + src[from..from + n] + old(dst[at + n..])
  {
    for i := 0 to n
      invariant forall j :: 0 <= j < dst.Length ==>
        dst[j] == if at <= j < at + i then src[from + (j - at)] else old(dst[j])
    {
      dst[at + i] := src[from + i];
    }
    assert forall j :: 0 <= j < dst.Length ==>
      dst[..][j] == (old(dst[..at]) + src[from..from + n] + old(dst[at + n..]))[j];
  }

  /** The first `rows` rows of m are the rows of w that `Source` names. */
  ghost predicate Done(m: seq<real>, w: seq<real>, h: nat, hd: nat, rows: nat)
    requires hd > 0
  {
    forall r :: 0 <= r < rows ==>
      r * h + h <= |m| && Source(h, hd, r) * h + h <= |w| && Row(m, h, r) == Row(w, h, Source(h, hd, r))
  }

  lemma RowPut(was: seq<real>, now: seq<real>, w: seq<real>, h: nat, hd: nat, row: nat)
    requires hd > 0 && row * h + h <= |was| && Source(h, hd, row) * h + h <= |w|
    requires now == was[..row * h] + Row(w, h, Source(h, hd, row)) + was[row * h + h..]
    requires Done(was, w, h, hd, row)
    ensures Done(now, w, h, hd, row + 1)
  {
    hide Source;
    forall r | 0 <= r < row + 1
      ensures r * h + h <= |now| && Source(h, hd, r) * h + h <= |w| && Row(now, h, r) == Row(w, h, Source(h, hd, r))
    {
      if r < row {
        RowFits(row, h, r);
        assert Row(now, h, r) == Row(was, h, r);
      } else {
        assert Row(now, h, row) == Row(w, h, Source(h, hd, row));
      }
    }
  }

  lemma RowsInside(h: nat, row: nat, o: nat)
    requires row < 3 * h && o < 3 * h
    ensures row * h + h <= 3 * h * h && o * h + h <= 3 * h * h
  {
    RowFits(3 * h, h, row);
    RowFits(3 * h, h, o);
  }

  /** A head's rows, (c, c + hd / 2) for c under hd / 2. */
  method ReorderHead(qkv: array<real>, wqkv: seq<real>, h: nat, heads: nat, hd: nat, first: nat, row: nat, ghost b: nat)
    returns (row': nat)
    requires Heads(h, heads, hd) && b < 2 * heads && first == row == b * hd
    requires qkv.Length == 3 * h * h && |wqkv| == 3 * h * h && Done(qkv[..], wqkv, h, hd, row)
    modifies qkv
    ensures row' == row + hd && Done(qkv[..], wqkv, h, hd, row')
  {
    hide Source, Done;
    row' := row;
    for c := 0 to hd / 2
      invariant row' == row + 2 * c && Done(qkv[..], wqkv, h, hd, row')
    {
      SourceAt(h, heads, hd, b, c, 0);
      SourceAt(h, heads, hd, b, c, 1);
      PutRow(qkv, wqkv, h, hd, row', first + c);
      row' := row' + 1;
      PutRow(qkv, wqkv, h, hd, row', first + c + hd / 2);
      row' := row' + 1;
    }
  }

  /** The fused QKV weight with Q's and K's rows pair-adjacent. */
  method ReorderQkv(h: nat, heads: nat, wqkv: seq<real>) returns (qkv: array<real>)
    requires heads > 0 && h % heads == 0 && h / heads > 0 && h / heads % 2 == 0 && |wqkv| == 3 * h * h
    ensures fresh(qkv) && qkv.Length == 3 * h * h
    ensures Done(qkv[..], wqkv, h, h / heads, 3 * h)
  {
    hide Source, Row, Done;
    var hd := h / heads;
    HeadsOf(h, heads);
    qkv := new real[3 * h * h](_ => 0.0);
    var row := 0;
    NoneDone(qkv[..], wqkv, h, hd);
    for third := 0 to 2
      invariant row == third * h && Done(qkv[..], wqkv, h, hd, row)
    {
      row := ReorderThird(qkv, wqkv, h, heads, hd, third, row);
    }
    ghost var was := qkv[..];
    Memcpy(qkv, 2 * h * h, wqkv, 2 * h * h, h * h);
    ValuesPut(was, qkv[..], wqkv, h, heads, hd);
  }

  lemma HeadsOf(h: nat, heads: nat)
    requires heads > 0 && h % heads == 0 && h / heads > 0 && h / heads % 2 == 0
    ensures Heads(h, heads, h / heads)
  {
    assert h == h / heads * heads + h % heads;
  }

  /** Q's heads, or K's. */
  method ReorderThird(qkv: array<real>, wqkv: seq<real>, h: nat, heads: nat, hd: nat, third: nat, row: nat)
    returns (row': nat)
    requires Heads(h, heads, hd) && third < 2 && row == third * h
    requires qkv.Length == 3 * h * h && |wqkv| == 3 * h * h && Done(qkv[..], wqkv, h, hd, row)
    modifies qkv
    ensures row' == row + h && Done(qkv[..], wqkv, h, hd, row')
  {
    hide Source, Row, Done, Heads;
    row' := row;
    var head := 0;
    ghost var g := 0;
    HeadWidth(h, heads, hd);
    while head < h
      invariant 0 <= g <= heads && head == g * hd && head <= h
      invariant row' == row + head && Done(qkv[..], wqkv, h, hd, row')
      decreases h - head
    {
      HeadStarts(h, heads, hd, third, g);
      row' := ReorderHead(qkv, wqkv, h, heads, hd, third * h + head, row', third * heads + g);
      head := head + hd;
      g := g + 1;
    }
  }

  lemma HeadWidth(h: nat, heads: nat, hd: nat)
    requires Heads(h, heads, hd)
    ensures hd > 0
  {
  }

  /** One row copied to its place. */
  method PutRow(qkv: array<real>, wqkv: seq<real>, h: nat, hd: nat, row: nat, o: nat)
    requires hd > 0 && row < 3 * h && o < 3 * h && o == Source(h, hd, row)
    requires qkv.Length == 3 * h * h && |wqkv| == 3 * h * h && Done(qkv[..], wqkv, h, hd, row)
    modifies qkv
    ensures Done(qkv[..], wqkv, h, hd, row + 1)
  {
    hide Source, Done;
    RowsInside(h, row, o);
    ghost var was := qkv[..];
    Memcpy(qkv, row * h, wqkv, o * h, h);
    RowPut(was, qkv[..], wqkv, h, hd, row);
  }

  lemma HeadStarts(h: nat, heads: nat, hd: nat, third: nat, g: nat)
    requires Heads(h, heads, hd) && third < 2 && g * hd < h
    ensures g < heads && third * heads + g < 2 * heads
    ensures (third * heads + g) * hd == third * h + g * hd
    ensures g * hd + hd <= h && (g + 1) * hd == g * hd + hd
  {
    MulLtCancels(g, heads, hd);
    MulLe(g + 1, heads, hd);
    Distribute(g, hd);
    assert (third * heads + g) * hd == third * (heads * hd) + g * hd;
  }

  /** V's rows are where they were. */
  lemma ValuesPut(was: seq<real>, now: seq<real>, w: seq<real>, h: nat, heads: nat, hd: nat)
    requires Heads(h, heads, hd) && |was| == |w| == 3 * h * h && Done(was, w, h, hd, 2 * h)
    requires now == was[..2 * h * h] + w[2 * h * h..2 * h * h + h * h] + was[2 * h * h + h * h..]
    ensures Done(now, w, h, hd, 3 * h)
  {
    hide Source, Row, Done;
    ValueRows(was, now, w, h, hd, 2 * h * h, h * h);
  }

  lemma RowSide(h: nat, r: nat, at: nat, n: nat)
    requires r < 3 * h && at == 2 * h * h && n == h * h
    ensures r < 2 * h ==> r * h + h <= at
    ensures r >= 2 * h ==> at <= r * h && r * h + h <= at + n
  {
    RowFits(3 * h, h, r);
    if r < 2 * h {
      RowFits(2 * h, h, r);
    } else {
      MulLe(2 * h, r, h);
    }
  }

  lemma ValueRows(was: seq<real>, now: seq<real>, w: seq<real>, h: nat, hd: nat, at: nat, n: nat)
    requires hd > 0 && at == 2 * h * h && n == h * h && |was| == |w| == at + n && Done(was, w, h, hd, 2 * h)
    requires now == was[..at] + w[at..at + n] + was[at + n..]
    ensures Done(now, w, h, hd, 3 * h)
  {
    forall r | 0 <= r < 3 * h
      ensures r * h + h <= |now| && Source(h, hd, r) * h + h <= |w| && Row(now, h, r) == Row(w, h, Source(h, hd, r))
    {
      hide Source;
      RowSide(h, r, at, n);
      if r < 2 * h {
        LowerRow(was, now, w, h, hd, 2 * h, r, at, n);
      } else {
        UpperRow(was, now, w, h, hd, r, at, n);
      }
    }
  }

  lemma LowerRow(was: seq<real>, now: seq<real>, w: seq<real>, h: nat, hd: nat, rows: nat, r: nat, at: nat, n: nat)
    requires hd > 0 && at + n <= |was| == |w| && Done(was, w, h, hd, rows) && r < rows && r * h + h <= at
    requires now == was[..at] + w[at..at + n] + was[at + n..]
    ensures r * h + h <= |now| && Source(h, hd, r) * h + h <= |w| && Row(now, h, r) == Row(w, h, Source(h, hd, r))
  {
    hide Source;
    SliceBelow(was, now, w[at..at + n], at, r * h, h);
  }

  lemma UpperRow(was: seq<real>, now: seq<real>, w: seq<real>, h: nat, hd: nat, r: nat, at: nat, n: nat)
    requires hd > 0 && at + n <= |was| == |w| && r >= 2 * h && at <= r * h && r * h + h <= at + n
    requires now == was[..at] + w[at..at + n] + was[at + n..]
    ensures r * h + h <= |now| && Source(h, hd, r) == r && Row(now, h, r) == Row(w, h, r)
  {
    SliceIn(was, now, w, at, n, r * h, h);
  }

  lemma SliceBelow(was: seq<real>, now: seq<real>, put: seq<real>, at: nat, x: nat, n: nat)
    requires at + |put| <= |was| && now == was[..at] + put + was[at + |put|..] && x + n <= at
    ensures now[x..x + n] == was[x..x + n]
  {
  }

  lemma SliceIn(was: seq<real>, now: seq<real>, w: seq<real>, at: nat, m: nat, x: nat, n: nat)
    requires at + m <= |was| && at + m <= |w| && now == was[..at] + w[at..at + m] + was[at + m..]
    requires at <= x && x + n <= at + m
    ensures now[x..x + n] == w[x..x + n]
  {
    var a, b := now[x..x + n], w[x..x + n];
    assert forall i :: 0 <= i < n ==> a[i] == now[x + i];
    assert forall i :: at <= i < at + m ==> now[i] == w[at..at + m][i - at];
    assert forall i :: 0 <= i < n ==> a[i] == b[i];
  }

  lemma NoneDone(m: seq<real>, w: seq<real>, h: nat, hd: nat)
    requires hd > 0
    ensures Done(m, w, h, hd, 0)
  {
  }

  // ---- The gated MLP's rows ----

  /** Row j of gate, then row j of up, where row j of both belongs. */
  predicate PairThere(ffn: seq<real>, gate: seq<real>, up: seq<real>, h: nat, j: nat) {
    2 * j * h + h + h <= |ffn| && j * h + h <= |gate| && j * h + h <= |up|
    && ffn[2 * j * h..2 * j * h + h] == Row(gate, h, j) && ffn[2 * j * h + h..2 * j * h + h + h] == Row(up, h, j)
  }

  /** Up to `done` rows of gate and of up, side by side. */
  ghost predicate SideBySide(ffn: seq<real>, gate: seq<real>, up: seq<real>, h: nat, done: nat) {
    forall j :: 0 <= j < done ==> PairThere(ffn, gate, up, h, j)
  }

  method Interleave(h: nat, inter: nat, gate: seq<real>, up: seq<real>) returns (ffn: array<real>)
    requires |gate| >= inter * h && |up| >= inter * h
    ensures fresh(ffn) && ffn.Length == 2 * inter * h
    ensures SideBySide(ffn[..], gate, up, h, inter)
  {
    hide SideBySide;
    ffn := new real[2 * inter * h](_ => 0.0);
    NoneSideBySide(ffn[..], gate, up, h);
    for j := 0 to inter
      invariant SideBySide(ffn[..], gate, up, h, j)
    {
      PutPair(ffn, gate, up, h, inter, j);
    }
  }

  method PutPair(ffn: array<real>, gate: seq<real>, up: seq<real>, h: nat, inter: nat, j: nat)
    requires j < inter && |gate| >= inter * h && |up| >= inter * h && ffn.Length == 2 * inter * h
    requires SideBySide(ffn[..], gate, up, h, j)
    modifies ffn
    ensures SideBySide(ffn[..], gate, up, h, j + 1)
  {
    hide SideBySide;
    ghost var was := ffn[..];
    PairFits(inter, h, j);
    Memcpy(ffn, 2 * j * h, gate, j * h, h);
    ghost var half := ffn[..];
    Memcpy(ffn, (2 * j + 1) * h, up, j * h, h);
    PairPut(was, half, ffn[..], gate, up, h, j, 2 * j * h, j * h);
  }

  lemma NoneSideBySide(ffn: seq<real>, gate: seq<real>, up: seq<real>, h: nat)
    ensures SideBySide(ffn, gate, up, h, 0)
  {
  }

  lemma PairFits(inter: nat, h: nat, j: nat)
    requires j < inter
    ensures 2 * j * h + h + h <= 2 * inter * h && j * h + h <= inter * h
    ensures (2 * j + 1) * h == 2 * j * h + h
  {
    RowFits(inter, h, j);
    RowFits(2 * inter, h, 2 * j + 1);
    Distribute(2 * j, h);
  }

  lemma PairPut(was: seq<real>, half: seq<real>, now: seq<real>, gate: seq<real>, up: seq<real>, h: nat, j: nat,
                at: nat, from: nat)
    requires at == 2 * j * h && from == j * h && at + h + h <= |was| && from + h <= |gate| && from + h <= |up|
    requires half == was[..at] + gate[from..from + h] + was[at + h..]
    requires now == half[..at + h] + up[from..from + h] + half[at + h + h..]
    requires SideBySide(was, gate, up, h, j)
    ensures SideBySide(now, gate, up, h, j + 1)
  {
    hide PairThere;
    forall i | 0 <= i < j + 1
      ensures PairThere(now, gate, up, h, i)
    {
      if i < j {
        PairFits(j, h, i);
        OldPair(was, half, now, gate, up, h, i, at, gate[from..from + h], up[from..from + h]);
      } else {
        NewPair(was, half, now, gate, up, h, j, at, from);
      }
    }
  }

  lemma OldPair(was: seq<real>, half: seq<real>, now: seq<real>, gate: seq<real>, up: seq<real>, h: nat, i: nat,
                at: nat, a: seq<real>, b: seq<real>)
    requires PairThere(was, gate, up, h, i) && |a| == |b| == h && at + h + h <= |was| && 2 * i * h + h + h <= at
    requires half == was[..at] + a + was[at + h..] && now == half[..at + h] + b + half[at + h + h..]
    ensures PairThere(now, gate, up, h, i)
  {
    PairStays(was, half, now, a, b, at, h, 2 * i * h);
  }

  lemma NewPair(was: seq<real>, half: seq<real>, now: seq<real>, gate: seq<real>, up: seq<real>, h: nat, j: nat,
                at: nat, from: nat)
    requires at == 2 * j * h && from == j * h && at + h + h <= |was| && from + h <= |gate| && from + h <= |up|
    requires half == was[..at] + gate[from..from + h] + was[at + h..]
    requires now == half[..at + h] + up[from..from + h] + half[at + h + h..]
    ensures PairThere(now, gate, up, h, j)
  {
    PairIsPut(was, half, now, gate[from..from + h], up[from..from + h], at, h);
  }

  lemma PairIsPut(was: seq<real>, half: seq<real>, now: seq<real>, a: seq<real>, b: seq<real>, at: nat, h: nat)
    requires |a| == |b| == h && at + h + h <= |was|
    requires half == was[..at] + a + was[at + h..] && now == half[..at + h] + b + half[at + h + h..]
    ensures now[at..at + h] == a && now[at + h..at + h + h] == b
  {
  }

  lemma PairStays(was: seq<real>, half: seq<real>, now: seq<real>, a: seq<real>, b: seq<real>, at: nat, h: nat, x: nat)
    requires |a| == |b| == h && at + h + h <= |was| && x + h + h <= at
    requires half == was[..at] + a + was[at + h..] && now == half[..at + h] + b + half[at + h + h..]
    ensures now[x..x + h] == was[x..x + h] && now[x + h..x + h + h] == was[x + h..x + h + h]
  {
  }
}
