/** What the reordered rows compute: the rotation of neighbours is rotate_half
    of the stored rows, so every score is the same, and one product holds both
    halves of the gated MLP. */
module RotaryTurns {
  import opened Arith
  import opened RotaryRows

  function Dot(a: seq<real>, b: seq<real>): real
    requires |a| == |b|
  {
    if a == [] then 0.0 else Dot(a[..|a| - 1], b[..|b| - 1]) + a[|a| - 1] * b[|b| - 1]
  }

  /** Column r of the product of x with the transpose of w. */
  function Product(x: seq<real>, w: seq<real>, h: nat, r: nat): real
    requires |x| == h && r * h + h <= |w|
  {
    Dot(x, Row(w, h, r))
  }

  type Turn = nat -> real   // cos or sin by pair, at a token's position

  type Columns = nat -> real

  lemma ModLe(o: nat, hd: nat)
    requires hd > 0
    ensures o % hd <= o
  {
    Split(o, o + 1, hd);
  }

  /** Column o of rotate_half: columns i and i + hd / 2 of a head turn together. */
  function TurnedHalf(v: Columns, hd: nat, cos: Turn, sin: Turn, o: nat): real
    requires hd > 0
  {
    var half, j := hd / 2, o % hd;
    ModLe(o, hd);
    if j < half then v(o) * cos(j) - v(o + half) * sin(j) else v(o) * cos(j - half) + v(o - half) * sin(j - half)
  }

  /** Column r of the epilogue's rotation: neighbours 2i and 2i + 1 turn together. */
  function TurnedPair(v: Columns, hd: nat, cos: Turn, sin: Turn, r: nat): real
    requires hd > 0
  {
    var j := r % hd;
    ModLe(r, hd);
    if j % 2 == 0 then v(r) * cos(j / 2) - v(r + 1) * sin(j / 2) else v(r) * cos(j / 2) + v(r - 1) * sin(j / 2)
  }

  function HalvesTurned(v: Columns, hd: nat, cos: Turn, sin: Turn): Columns
    requires hd > 0
  {
    (o: nat) => TurnedHalf(v, hd, cos, sin, o)
  }

  function PairsTurned(v: Columns, hd: nat, cos: Turn, sin: Turn): Columns
    requires hd > 0
  {
    (r: nat) => TurnedPair(v, hd, cos, sin, r)
  }

  lemma PairTurnsAt(v: Columns, h: nat, heads: nat, hd: nat, cos: Turn, sin: Turn, b: nat, c: nat)
    requires Heads(h, heads, hd) && b < 2 * heads && c < hd / 2
    ensures TurnedPair(v, hd, cos, sin, b * hd + 2 * c) == v(b * hd + 2 * c) * cos(c) - v(b * hd + 2 * c + 1) * sin(c)
    ensures TurnedPair(v, hd, cos, sin, b * hd + 2 * c + 1) ==
      v(b * hd + 2 * c + 1) * cos(c) + v(b * hd + 2 * c) * sin(c)
  {
    InHead(h, heads, hd, b, 2 * c);
    InHead(h, heads, hd, b, 2 * c + 1);
    var r := b * hd + 2 * c;
    assert r % hd == 2 * c && (r + 1) % hd == 2 * c + 1;
    assert (2 * c) / 2 == c && (2 * c + 1) / 2 == c && (2 * c) % 2 == 0 && (2 * c + 1) % 2 == 1;
  }

  lemma HalfTurnsAt(v: Columns, h: nat, heads: nat, hd: nat, cos: Turn, sin: Turn, b: nat, c: nat)
    requires Heads(h, heads, hd) && b < 2 * heads && c < hd / 2
    ensures TurnedHalf(v, hd, cos, sin, b * hd + c) == v(b * hd + c) * cos(c) - v(b * hd + c + hd / 2) * sin(c)
    ensures TurnedHalf(v, hd, cos, sin, b * hd + c + hd / 2) == v(b * hd + c + hd / 2) * cos(c) + v(b * hd + c) * sin(c)
  {
    InHead(h, heads, hd, b, c);
    InHead(h, heads, hd, b, c + hd / 2);
    var o, half := b * hd + c, hd / 2;
    assert o % hd == c && (o + half) % hd == c + half;
  }

  /** Turning neighbours of the reordered columns is reordering the columns
      turned by rotate_half. */
  lemma TurningCommutes(v: Columns, v': Columns, h: nat, heads: nat, hd: nat, cos: Turn, sin: Turn, r: nat)
    requires Heads(h, heads, hd) && r < 2 * h
    requires forall r :: 0 <= r < 2 * h ==> v'(r) == v(Source(h, hd, r))
    ensures TurnedPair(v', hd, cos, sin, r) == TurnedHalf(v, hd, cos, sin, Source(h, hd, r))
  {
    hide Source, TurnedHalf, TurnedPair;
    HeadOf(h, heads, hd, r);
    var b, c := r / hd, r % hd / 2;
    SourceAt(h, heads, hd, b, c, 0);
    SourceAt(h, heads, hd, b, c, 1);
    PairTurnsAt(v', h, heads, hd, cos, sin, b, c);
    HalfTurnsAt(v, h, heads, hd, cos, sin, b, c);
    assert r == b * hd + 2 * c || r == b * hd + 2 * c + 1;
  }

  function Term(a: Columns, b: Columns, x: nat, y: nat): real { a(x) * b(y) }

  /** The product of n columns of a from i with n columns of b from j. */
  function Score(a: Columns, b: Columns, i: nat, j: nat, n: nat): real {
    if n == 0 then 0.0 else Score(a, b, i, j, n - 1) + Term(a, b, i + n - 1, j + n - 1)
  }

  lemma {:induction false} ScoreSplits(a: Columns, b: Columns, i: nat, j: nat, m: nat, n: nat)
    ensures Score(a, b, i, j, m + n) == Score(a, b, i, j, m) + Score(a, b, i + m, j + m, n)
  {
    hide Term;
    if n > 0 {
      ScoreSplits(a, b, i, j, m, n - 1);
    }
  }

  lemma TwoMore(a: Columns, b: Columns, i: nat, j: nat, n: nat)
    ensures Score(a, b, i, j, n + 2) ==
      Score(a, b, i, j, n) + Term(a, b, i + n, j + n) + Term(a, b, i + n + 1, j + n + 1)
  {
    hide Term;
    assert Score(a, b, i, j, n + 2) == Score(a, b, i, j, n + 1) + Term(a, b, i + n + 1, j + n + 1);
  }

  /** Columns taken pair-adjacent give the score they gave. */
  lemma {:induction false} PairsScoreAlike(a: Columns, b: Columns, a': Columns, b': Columns, i: nat, j: nat,
                                           half: nat, n: nat)
    requires n <= half
    requires forall c :: 0 <= c < n ==> a'(i + 2 * c) == a(i + c) && a'(i + 2 * c + 1) == a(i + c + half)
    requires forall c :: 0 <= c < n ==> b'(j + 2 * c) == b(j + c) && b'(j + 2 * c + 1) == b(j + c + half)
    ensures Score(a', b', i, j, 2 * n) == Score(a, b, i, j, n) + Score(a, b, i + half, j + half, n)
  {
    if n > 0 {
      var c := n - 1;
      PairsScoreAlike(a, b, a', b', i, j, half, c);
      TwoMore(a', b', i, j, 2 * c);
      SameTerm(a', b', i + 2 * c, j + 2 * c, a, b, i + c, j + c);
      SameTerm(a', b', i + 2 * c + 1, j + 2 * c + 1, a, b, i + half + c, j + half + c);
      hide Term;
      assert 2 * c + 2 == 2 * n;
    }
  }

  lemma SameTerm(a': Columns, b': Columns, x': nat, y': nat, a: Columns, b: Columns, x: nat, y: nat)
    requires a'(x') == a(x) && b'(y') == b(y)
    ensures Term(a', b', x', y') == Term(a, b, x, y)
  {
  }

  function ColumnsOf(x: seq<real>, w: seq<real>, h: nat): Columns
    requires |x| == h
  {
    (o: nat) => ColumnOf(x, w, h, o)
  }

  /** Where head g starts. */
  function Base(hd: nat, g: nat): nat { g * hd }

  /** A layer's score of query x and key y in head g, as the session computes
      it: from the reordered rows, neighbours turned. */
  function SessionScore(x: seq<real>, y: seq<real>, qkv: seq<real>, h: nat, hd: nat, g: nat,
                        cosX: Turn, sinX: Turn, cosY: Turn, sinY: Turn): real
    requires hd > 0 && |x| == |y| == h
  {
    Score(PairsTurned(ColumnsOf(x, qkv, h), hd, cosX, sinX), PairsTurned(ColumnsOf(y, qkv, h), hd, cosY, sinY),
          Base(hd, g), h + Base(hd, g), hd)
  }

  /** The same as the model defines it: from the stored rows, rotate_half. */
  function StoredScore(x: seq<real>, y: seq<real>, wqkv: seq<real>, h: nat, hd: nat, g: nat,
                       cosX: Turn, sinX: Turn, cosY: Turn, sinY: Turn): real
    requires hd > 0 && |x| == |y| == h
  {
    Score(HalvesTurned(ColumnsOf(x, wqkv, h), hd, cosX, sinX), HalvesTurned(ColumnsOf(y, wqkv, h), hd, cosY, sinY),
          Base(hd, g), h + Base(hd, g), hd)
  }

  function ColumnOf(x: seq<real>, w: seq<real>, h: nat, r: nat): real
    requires |x| == h
  {
    if r * h + h <= |w| then Product(x, w, h, r) else 0.0
  }

  lemma ColumnsFollow(x: seq<real>, w: seq<real>, qkv: seq<real>, h: nat, hd: nat, r: nat)
    requires hd > 0 && |x| == h && Done(qkv, w, h, hd, 3 * h) && r < 3 * h
    ensures ColumnOf(x, qkv, h, r) == ColumnOf(x, w, h, Source(h, hd, r))
  {
  }

  /** Every query-key score is what rotate_half of the stored weight gives. */
  lemma EveryScoreIsTheStoredOne(x: seq<real>, y: seq<real>, w: seq<real>, qkv: seq<real>, h: nat, heads: nat,
                                 hd: nat, g: nat, cosX: Turn, sinX: Turn, cosY: Turn, sinY: Turn)
    requires Heads(h, heads, hd) && |x| == |y| == h && g < heads && Done(qkv, w, h, hd, 3 * h)
    ensures SessionScore(x, y, qkv, h, hd, g, cosX, sinX, cosY, sinY) ==
            StoredScore(x, y, w, h, hd, g, cosX, sinX, cosY, sinY)
  {
    hide HalvesTurned, PairsTurned, Score, Source, Done, Base, Adjacent, ColumnsOf, ColumnOf;
    var a, a' := HalvesTurned(ColumnsOf(x, w, h), hd, cosX, sinX), PairsTurned(ColumnsOf(x, qkv, h), hd, cosX, sinX);
    var b, b' := HalvesTurned(ColumnsOf(y, w, h), hd, cosY, sinY), PairsTurned(ColumnsOf(y, qkv, h), hd, cosY, sinY);
    QueryColumns(x, w, qkv, h, heads, hd, g, cosX, sinX);
    KeyColumns(y, w, qkv, h, heads, hd, g, cosY, sinY);
    AdjacentPairsScoreAlike(a, b, a', b', Base(hd, g), h + Base(hd, g), hd);
  }

  /** a' has columns of a from `at` on pair-adjacent. */
  ghost predicate Adjacent(a: Columns, a': Columns, at: nat, hd: nat) {
    forall c :: 0 <= c < hd / 2 ==> a'(at + 2 * c) == a(at + c) && a'(at + 2 * c + 1) == a(at + c + hd / 2)
  }

  lemma QueryColumns(x: seq<real>, w: seq<real>, qkv: seq<real>, h: nat, heads: nat, hd: nat, g: nat, cos: Turn,
                     sin: Turn)
    requires Heads(h, heads, hd) && |x| == h && g < heads && Done(qkv, w, h, hd, 3 * h)
    ensures hd % 2 == 0 && Adjacent(HalvesTurned(ColumnsOf(x, w, h), hd, cos, sin),
                                    PairsTurned(ColumnsOf(x, qkv, h), hd, cos, sin), Base(hd, g), hd)
  {
    hide HalvesTurned, PairsTurned, Source, Done;
    TurnedColumns(x, w, qkv, h, heads, hd, g, Base(hd, g), cos, sin);
  }

  lemma KeyColumns(x: seq<real>, w: seq<real>, qkv: seq<real>, h: nat, heads: nat, hd: nat, g: nat, cos: Turn,
                   sin: Turn)
    requires Heads(h, heads, hd) && |x| == h && g < heads && Done(qkv, w, h, hd, 3 * h)
    ensures Adjacent(HalvesTurned(ColumnsOf(x, w, h), hd, cos, sin),
                     PairsTurned(ColumnsOf(x, qkv, h), hd, cos, sin), h + Base(hd, g), hd)
  {
    hide HalvesTurned, PairsTurned, Source, Done;
    KeyHead(h, heads, hd, g);
    TurnedColumns(x, w, qkv, h, heads, hd, heads + g, h + Base(hd, g), cos, sin);
  }

  lemma KeyHead(h: nat, heads: nat, hd: nat, g: nat)
    requires Heads(h, heads, hd)
    ensures (heads + g) * hd == h + Base(hd, g)
  {
  }

  lemma AdjacentPairsScoreAlike(a: Columns, b: Columns, a': Columns, b': Columns, i: nat, j: nat, hd: nat)
    requires hd % 2 == 0
    requires Adjacent(a, a', i, hd) && Adjacent(b, b', j, hd)
    ensures Score(a', b', i, j, hd) == Score(a, b, i, j, hd)
  {
    hide Score;
    PairsScoreAlike(a, b, a', b', i, j, hd / 2, hd / 2);
    ScoreSplits(a, b, i, j, hd / 2, hd / 2);
  }

  /** A head's turned columns, pair-adjacent. */
  lemma TurnedColumns(x: seq<real>, w: seq<real>, qkv: seq<real>, h: nat, heads: nat, hd: nat, b: nat, at: nat,
                      cos: Turn, sin: Turn)
    requires Heads(h, heads, hd) && |x| == h && b < 2 * heads && at == b * hd && Done(qkv, w, h, hd, 3 * h)
    ensures var a, a' := HalvesTurned(ColumnsOf(x, w, h), hd, cos, sin),
      PairsTurned(ColumnsOf(x, qkv, h), hd, cos, sin);
      Adjacent(a, a', at, hd)
  {
    hide Source, Done, ColumnOf, TurnedHalf, TurnedPair;
    var v, v' := ColumnsOf(x, w, h), ColumnsOf(x, qkv, h);
    forall r | 0 <= r < 2 * h
      ensures v'(r) == v(Source(h, hd, r))
    {
      ColumnsFollow(x, w, qkv, h, hd, r);
    }
    var a, a' := HalvesTurned(v, hd, cos, sin), PairsTurned(v', hd, cos, sin);
    forall c | 0 <= c < hd / 2
      ensures a'(at + 2 * c) == a(at + c) && a'(at + 2 * c + 1) == a(at + c + hd / 2)
    {
      SourceAt(h, heads, hd, b, c, 0);
      SourceAt(h, heads, hd, b, c, 1);
      TurningCommutes(v, v', h, heads, hd, cos, sin, at + 2 * c);
      TurningCommutes(v, v', h, heads, hd, cos, sin, at + 2 * c + 1);
    }
  }

  /** V's columns are the stored ones. */
  lemma EveryValueIsTheStoredOne(x: seq<real>, w: seq<real>, qkv: seq<real>, h: nat, hd: nat, r: nat)
    requires hd > 0 && |x| == h && Done(qkv, w, h, hd, 3 * h) && 2 * h <= r < 3 * h
    ensures ColumnOf(x, qkv, h, r) == ColumnOf(x, w, h, r)
  {
    ColumnsFollow(x, w, qkv, h, hd, r);
  }

  /** Columns 2j and 2j + 1 of the one product give act(gate) * up. */
  lemma OneProductGates(x: seq<real>, ffn: seq<real>, gate: seq<real>, up: seq<real>, h: nat, inter: nat, j: nat,
                        act: real -> real)
    requires |x| == h && SideBySide(ffn, gate, up, h, inter) && j < inter && |ffn| == 2 * inter * h
    ensures act(ColumnOf(x, ffn, h, 2 * j)) * ColumnOf(x, ffn, h, 2 * j + 1) ==
            act(ColumnOf(x, gate, h, j)) * ColumnOf(x, up, h, j)
  {
    hide Dot;
    assert PairThere(ffn, gate, up, h, j);
    PairFits(inter, h, j);
  }
}
