/** Which tensor of a rotary family each slot of BERT's holds, by what the
    tensor is for, and the rotation in the model's own terms. */
module RotaryTables {
  import opened Arith
  import opened RotaryRows
  import opened RotaryTurns
  import opened RotarySlots

  /** What a layer's tensor is for. */
  datatype Role =
    | QBias | KBias | VBias | AttnOutWeight | AttnOutBias | AttnLnWeight | AttnLnBias
    | FfnInBias | FfnOutWeight | FfnOutBias | FfnLnWeight | FfnLnBias

  /** Its place among a BERT layer's slots (turbo_backend.h). */
  function BertPlace(r: Role): nat {
    match r
    case QBias => 1
    case KBias => 3
    case VBias => 5
    case AttnOutWeight => 6
    case AttnOutBias => 7
    case AttnLnWeight => 8
    case AttnLnBias => 9
    case FfnInBias => 11
    case FfnOutWeight => 12
    case FfnOutBias => 13
    case FfnLnWeight => 14
    case FfnLnBias => 15
  }

  /** Its place among the family's tensors of a layer, for those it has. */
  function FamilyPlace(modern: bool, r: Role): RotarySlots.Option<nat> {
    match r
    case AttnOutWeight => RotarySlots.Some(if modern then 2 else 1)
    case AttnLnWeight => RotarySlots.Some(if modern then 0 else 2)
    case FfnOutWeight => RotarySlots.Some(if modern then 5 else 6)
    case FfnLnWeight => RotarySlots.Some(if modern then 3 else 7)
    case AttnLnBias => if modern then RotarySlots.None else RotarySlots.Some(3)
    case FfnLnBias => if modern then RotarySlots.None else RotarySlots.Some(8)
    case _ => RotarySlots.None
  }

  /** Tensor k of layer l: after 3 of ModernBERT's and 6 a layer, or 4 of
      nomic-bert's and 9 a layer. */
  lemma TensorPlaces(d: Model, l: nat, k: nat)
    ensures Tensor(d, l, k) == if d.modern then 3 + 6 * l + k else 4 + 9 * l + k
  {
  }

  /** Each slot holds the tensor that is for what the slot is for; zeros where
      the family has none; and nothing where ModernBERT's layer has no
      attention norm. */
  lemma EachSlotHoldsItsTensor(d: Model, slots: seq<View>, owned: seq<seq<real>>, l: nat, r: Role)
    requires Made(d, slots, owned) && l < d.layers
    ensures var v, place := At(slots, l, BertPlace(r)), FamilyPlace(d.modern, r);
      match place
      case None => v == Owned(0, 0, if r == FfnInBias then 2 * d.inter else d.hidden)
      case Some(k) =>
        var t := if d.modern then 3 + 6 * l + k else 4 + 9 * l + k;
        if d.modern && r == AttnLnWeight && !(t < |d.tensors| && d.tensors[t].Some?) then v == Empty else v == Given(t)
  {
    hide LayerOwned, Checked;
    assert At(slots, l, BertPlace(r)) == LayerSlot(d, l, BertPlace(r));
    if FamilyPlace(d.modern, r).Some? {
      TensorPlaces(d, l, FamilyPlace(d.modern, r).value);
    }
  }

  /** The embedding slots: words, the final norm in the place of positions,
      token types, and the embeddings' norm. */
  lemma EachEmbeddingSlotHoldsItsTensor(d: Model, slots: seq<View>, owned: seq<seq<real>>)
    requires Made(d, slots, owned)
    ensures |slots| == 5 + 16 * d.layers
    ensures slots[..5] ==
      if d.modern then [Given(0), Given(2), Empty, Given(1), Owned(0, 0, d.hidden)]
      else [Given(0), Empty, Given(1), Given(2), Given(3)]
  {
    hide LayerOwned, LayerSlot, Checked;
  }

  /** The weights that are reordered: ModernBERT's fused ones, its gate's rows
      before its up rows, and nomic-bert's apart. */
  lemma StoredParts(d: Model, l: nat)
    requires LayerShaped(d, l)
    ensures Qkv(d, l) == Data(d, if d.modern then 3 + 6 * l + 1 else 4 + 9 * l)
    ensures d.modern ==> Gate(d, l) == Data(d, 3 + 6 * l + 4)
    ensures d.modern ==> d.inter * d.hidden <= |Data(d, 3 + 6 * l + 4)|
    ensures d.modern ==> Up(d, l) == Data(d, 3 + 6 * l + 4)[d.inter * d.hidden..]
    ensures !d.modern ==> Gate(d, l) == Data(d, 4 + 9 * l + 4) && Up(d, l) == Data(d, 4 + 9 * l + 5)
  {
    TensorPlaces(d, l, 0);
    TensorPlaces(d, l, 1);
    TensorPlaces(d, l, 4);
    TensorPlaces(d, l, 5);
    assert 2 * d.inter * d.hidden == d.inter * d.hidden + d.inter * d.hidden;
  }

  /** A head's values. */
  function HeadOf(v: Columns, at: nat, hd: nat): (x: seq<real>)
    ensures |x| == hd
  {
    seq(hd, j requires 0 <= j < hd => v(at + j))
  }

  /** The model's rotate_half: the second half negated, then the first. */
  function RotateHalf(x: seq<real>): (y: seq<real>)
    requires |x| % 2 == 0
    ensures |y| == |x|
  {
    var half := |x| / 2;
    seq(half, j requires 0 <= j < half => -x[half + j]) + x[..half]
  }

  /** The table's cos or sin of column j: it repeats after half a head. */
  function AtColumn(t: Turn, hd: nat, j: nat): real
    requires hd > 0
  {
    t(if j < hd / 2 then j else j - hd / 2)
  }

  /** A head turned is x * cos + rotate_half(x) * sin. */
  lemma TurnedIsRotateHalf(v: Columns, h: nat, heads: nat, hd: nat, cos: Turn, sin: Turn, b: nat, j: nat)
    requires Heads(h, heads, hd) && b < 2 * heads && j < hd
    ensures var x := HeadOf(v, b * hd, hd);
      TurnedHalf(v, hd, cos, sin, b * hd + j) == x[j] * AtColumn(cos, hd, j) + RotateHalf(x)[j] * AtColumn(sin, hd, j)
  {
    hide TurnedHalf;
    var half := hd / 2;
    HalfTurnsAt(v, h, heads, hd, cos, sin, b, if j < half then j else j - half);
    var x := HeadOf(v, b * hd, hd);
    assert x[j] == v(b * hd + j);
    if j < half {
      assert RotateHalf(x)[j] == -v(b * hd + (half + j));
      Negated(v(b * hd + j + half), sin(j));
    } else {
      assert RotateHalf(x)[j] == x[j - half] == v(b * hd + (j - half));
    }
  }

  lemma Negated(a: real, b: real)
    ensures (-a) * b == -(a * b)
  {
  }

  // ---- Products ----

  function Total(ps: seq<real>): real {
    if ps == [] then 0.0 else Total(ps[..|ps| - 1]) + ps[|ps| - 1]
  }

  function Times(x: real, y: real): real { x * y }

  lemma DotOfOneMore(a: seq<real>, b: seq<real>, m: nat)
    requires |a| == |b| == m + 1
    ensures Dot(a, b) == Dot(a[..m], b[..m]) + Times(a[m], b[m])
  {
  }

  lemma {:induction false} TimesAdd(a: seq<real>, b: seq<real>) returns (ps: seq<real>)
    requires |a| == |b|
    ensures |ps| == |a| && (forall k :: 0 <= k < |ps| ==> ps[k] == Times(a[k], b[k])) && Dot(a, b) == Total(ps)
  {
    hide Times;
    ps := [];
    if a != [] {
      var m := |a| - 1;
      var before := TimesAdd(a[..m], b[..m]);
      ps := before + [Times(a[m], b[m])];
      assert ps[..m] == before;
      DotOfOneMore(a, b, m);
    }
  }

  /** A column of a product is the total of the products of its numbers. */
  lemma DotAdds(a: seq<real>, b: seq<real>) returns (ps: seq<real>)
    requires |a| == |b|
    ensures |ps| == |a| && (forall k :: 0 <= k < |ps| ==> ps[k] == a[k] * b[k]) && Dot(a, b) == Total(ps)
  {
    ps := TimesAdd(a, b);
  }

  lemma {:induction false} TermsAdd(a: Columns, b: Columns, i: nat, j: nat, n: nat) returns (ps: seq<real>)
    ensures |ps| == n && (forall k :: 0 <= k < n ==> ps[k] == Term(a, b, i + k, j + k))
    ensures Score(a, b, i, j, n) == Total(ps)
  {
    hide Term;
    ps := [];
    if n > 0 {
      var before := TermsAdd(a, b, i, j, n - 1);
      ps := before + [Term(a, b, i + n - 1, j + n - 1)];
      assert ps[..n - 1] == before;
    }
  }

  /** A score is the total of the products of n columns from i and from j. */
  lemma ScoreAdds(a: Columns, b: Columns, i: nat, j: nat, n: nat) returns (ps: seq<real>)
    ensures |ps| == n && (forall k :: 0 <= k < n ==> ps[k] == a(i + k) * b(j + k)) && Score(a, b, i, j, n) == Total(ps)
  {
    ps := TermsAdd(a, b, i, j, n);
  }
}
