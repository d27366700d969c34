/** core/cuda/rotary.cpp's rotary_slots: a rotary model's tensors in BERT's
    slots, pointing into the model's own tensors or into the vectors made. */
module RotarySlots {
  import opened Arith
  import opened RotaryRows
  import opened RotaryTurns

  datatype Option<T> = None | Some(value: T)

  /** What rotary_slots reads of a model description. A tensor that is absent
      has no data. */
  datatype Model = Model(modern: bool, hidden: nat, heads: nat, inter: nat, layers: nat,
    tensors: seq<Option<seq<real>>>)

  /** What a slot points at. */
  datatype View = Empty | Given(tensor: nat) | Owned(vector: nat, at: nat, count: nat)

  const BERT_EMBEDDINGS := 5
  const BERT_LAYER := 16

  function Embeddings(d: Model): nat { if d.modern then 3 else 4 }

  function PerLayer(d: Model): nat { if d.modern then 6 else 9 }

  /** Tensor k of layer l. */
  function Tensor(d: Model, l: nat, k: nat): nat { Embeddings(d) + l * PerLayer(d) + k }

  function Data(d: Model, i: nat): seq<real> {
    if i < |d.tensors| && d.tensors[i].Some? then d.tensors[i].value else []
  }

  function Qkv(d: Model, l: nat): seq<real> { Data(d, Tensor(d, l, if d.modern then 1 else 0)) }

  /** ModernBERT's fused tensor has the gate's rows first. */
  function Gate(d: Model, l: nat): seq<real> { Data(d, Tensor(d, l, 4)) }

  function Up(d: Model, l: nat): seq<real> {
    if d.modern then
      (if d.inter * d.hidden <= |Gate(d, l)| then Gate(d, l)[d.inter * d.hidden..] else [])
    else Data(d, Tensor(d, l, 5))
  }

  /** What rotary_check and the bundle's shapes promise. */
  predicate Checked(d: Model) {
    && d.heads > 0 && d.hidden % d.heads == 0 && d.hidden / d.heads > 0 && d.hidden / d.heads % 2 == 0
    && |d.tensors| == Embeddings(d) + d.layers * PerLayer(d)
    && forall l :: 0 <= l < d.layers ==> LayerShaped(d, l)
  }

  predicate LayerShaped(d: Model, l: nat) {
    && |Qkv(d, l)| == 3 * d.hidden * d.hidden
    && |Gate(d, l)| == (if d.modern then 2 * d.inter * d.hidden else d.inter * d.hidden)
    && (!d.modern ==> |Up(d, l)| == d.inter * d.hidden)
  }

  function Zero(n: nat): View { Owned(0, 0, n) }

  function EmbeddingSlot(d: Model, k: nat): View {
    match k
    case 0 => Given(0)
    case 1 => if d.modern then Given(2) else Empty      // the final norm, in the position table's slot
    case 2 => if d.modern then Empty else Given(1)
    case 3 => Given(if d.modern then 1 else 2)
    case _ => if d.modern then Zero(d.hidden) else Given(3)
  }

  /** Slot k of layer l: weights in the even places, biases in the odd. */
  function LayerSlot(d: Model, l: nat, k: nat): View {
    var h, n := d.hidden, d.hidden * d.hidden;
    match k
    case 0 => Owned(1 + 2 * l, 0, n)
    case 2 => Owned(1 + 2 * l, n, n)
    case 4 => Owned(1 + 2 * l, 2 * n, n)
    case 6 => Given(Tensor(d, l, if d.modern then 2 else 1))
    case 8 =>
      if !d.modern then Given(Tensor(d, l, 2))
      else if Tensor(d, l, 0) < |d.tensors| && d.tensors[Tensor(d, l, 0)].Some? then Given(Tensor(d, l, 0))
      else Empty
    case 9 => if d.modern then Zero(h) else Given(Tensor(d, l, 3))
    case 10 => Owned(2 + 2 * l, 0, 2 * d.inter * h)
    case 11 => Zero(2 * d.inter)
    case 12 => Given(Tensor(d, l, if d.modern then 5 else 6))
    case 14 => Given(Tensor(d, l, if d.modern then 3 else 7))
    case 15 => if d.modern then Zero(h) else Given(Tensor(d, l, 8))
    case _ => Zero(h)
  }

  /** Layer l's vectors are its weights reordered. */
  ghost predicate LayerOwned(d: Model, owned: seq<seq<real>>, l: nat)
    requires d.heads > 0 && d.hidden / d.heads > 0
  {
    && 2 + 2 * l < |owned|
    && |Vector(owned, 1 + 2 * l)| == 3 * d.hidden * d.hidden && |Vector(owned, 2 + 2 * l)| == 2 * d.inter * d.hidden
    && Done(Vector(owned, 1 + 2 * l), Qkv(d, l), d.hidden, d.hidden / d.heads, 3 * d.hidden)
    && SideBySide(Vector(owned, 2 + 2 * l), Gate(d, l), Up(d, l), d.hidden, d.inter)
  }

  function Vector(owned: seq<seq<real>>, i: nat): seq<real> { if i < |owned| then owned[i] else [] }

  predicate Placed(d: Model, slots: seq<View>, layers: nat) {
    && |slots| == BERT_EMBEDDINGS + d.layers * BERT_LAYER && layers <= d.layers
    && (forall k :: 0 <= k < BERT_EMBEDDINGS ==> slots[k] == EmbeddingSlot(d, k))
    && (forall l, k :: 0 <= l < layers && 0 <= k < BERT_LAYER ==> At(slots, l, k) == LayerSlot(d, l, k))
    && (forall i :: BERT_EMBEDDINGS + layers * BERT_LAYER <= i < |slots| ==> slots[i] == Empty)
  }

  function At(slots: seq<View>, l: nat, k: nat): View {
    if BERT_EMBEDDINGS + l * BERT_LAYER + k < |slots| then slots[BERT_EMBEDDINGS + l * BERT_LAYER + k] else Empty
  }

  /** Each slot where it belongs, the layers' vectors reordered, and zeros for
      the widest bias. */
  ghost predicate Made(d: Model, slots: seq<View>, owned: seq<seq<real>>) {
    && Checked(d) && Placed(d, slots, d.layers)
    && |owned| == 1 + 2 * d.layers && (forall l :: 0 <= l < d.layers ==> LayerOwned(d, owned, l))
    && |owned[0]| == (if 3 * d.hidden > 2 * d.inter then 3 * d.hidden else 2 * d.inter)
    && forall i :: 0 <= i < |owned[0]| ==> owned[0][i] == 0.0
  }

  method Slots(d: Model) returns (slots: seq<View>, owned: seq<seq<real>>)
    requires Checked(d)
    ensures Made(d, slots, owned)
  {
    hide Done, SideBySide, LayerSlot, Tensor;
    var h := d.hidden;
    var widest := if 3 * h > 2 * d.inter then 3 * h else 2 * d.inter;
    owned := [seq(widest, _ => 0.0)];
    slots := seq(BERT_EMBEDDINGS + d.layers * BERT_LAYER, _ => Empty);
    if d.modern {
      slots := slots[0 := Given(0)][1 := Given(2)][3 := Given(1)][4 := Zero(h)];
    } else {
      slots := slots[0 := Given(0)][2 := Given(1)][3 := Given(2)][4 := Given(3)];
    }
    for l := 0 to d.layers
      invariant Placed(d, slots, l)
      invariant |owned| == 1 + 2 * l && owned[0] == seq(widest, _ => 0.0)
      invariant forall m :: 0 <= m < l ==> LayerOwned(d, owned, m)
    {
      assert LayerShaped(d, l);
      var qkv := ReorderQkv(h, d.heads, Qkv(d, l));
      UpFits(d, l);
      var ffn := Interleave(h, d.inter, Gate(d, l), Up(d, l));
      ghost var was := owned;
      owned := owned + [qkv[..]];
      owned := owned + [ffn[..]];
      LayerPushed(d, was, owned, l);
      slots := Layer(d, slots, l);
    }
  }

  lemma UpFits(d: Model, l: nat)
    requires LayerShaped(d, l)
    ensures |Gate(d, l)| >= d.inter * d.hidden && |Up(d, l)| >= d.inter * d.hidden
  {
    assert 2 * d.inter * d.hidden == d.inter * d.hidden + d.inter * d.hidden;
  }

  lemma LayerPushed(d: Model, was: seq<seq<real>>, owned: seq<seq<real>>, l: nat)
    requires d.heads > 0 && d.hidden / d.heads > 0 && |was| == 1 + 2 * l && |owned| == 3 + 2 * l
      && owned[..|was|] == was
    requires forall m :: 0 <= m < l ==> LayerOwned(d, was, m)
    requires LayerOwned(d, owned, l)
    ensures forall m :: 0 <= m < l + 1 ==> LayerOwned(d, owned, m)
  {
    hide Done, SideBySide, Qkv, Gate, Up;
    forall m | 0 <= m < l
      ensures LayerOwned(d, owned, m)
    {
      assert LayerOwned(d, was, m);
      assert Vector(owned, 1 + 2 * m) == Vector(was, 1 + 2 * m) && Vector(owned, 2 + 2 * m) == Vector(was, 2 + 2 * m);
    }
  }

  /** One layer's sixteen slots. */
  method Layer(d: Model, slots: seq<View>, l: nat) returns (s: seq<View>)
    requires l < d.layers && Placed(d, slots, l)
    ensures Placed(d, s, l + 1)
  {
    var h, n, b := d.hidden, d.hidden * d.hidden, BERT_EMBEDDINGS + l * BERT_LAYER;
    hide Tensor, EmbeddingSlot;
    s := slots[b + 0 := Owned(1 + 2 * l, 0, n)][b + 2 := Owned(1 + 2 * l, n, n)][b + 4 := Owned(1 + 2 * l, 2 * n, n)];
    s := s[b + 1 := Zero(h)][b + 3 := Zero(h)][b + 5 := Zero(h)];
    s := s[b + 7 := Zero(h)][b + 13 := Zero(h)];
    s := s[b + 10 := Owned(2 + 2 * l, 0, 2 * d.inter * h)];
    s := s[b + 11 := Zero(2 * d.inter)];
    if d.modern {
      s := s[b + 6 := Given(Tensor(d, l, 2))][b + 12 := Given(Tensor(d, l, 5))];
      if Tensor(d, l, 0) < |d.tensors| && d.tensors[Tensor(d, l, 0)].Some? {
        s := s[b + 8 := Given(Tensor(d, l, 0))];
      }
      s := s[b + 9 := Zero(h)][b + 14 := Given(Tensor(d, l, 3))][b + 15 := Zero(h)];
    } else {
      s := s[b + 6 := Given(Tensor(d, l, 1))][b + 12 := Given(Tensor(d, l, 6))];
      s := s[b + 8 := Given(Tensor(d, l, 2))][b + 9 := Given(Tensor(d, l, 3))];
      s := s[b + 14 := Given(Tensor(d, l, 7))][b + 15 := Given(Tensor(d, l, 8))];
    }
    assert forall k :: 0 <= k < BERT_LAYER ==> s[b + k] == LayerSlot(d, l, k);
    assert forall i :: 0 <= i < |s| && !(b <= i < b + BERT_LAYER) ==> s[i] == slots[i];
    LayerPlaced(d, slots, s, l);
  }

  lemma LayerPlaced(d: Model, slots: seq<View>, s: seq<View>, l: nat)
    requires l < d.layers && Placed(d, slots, l) && |s| == |slots|
    requires forall k :: 0 <= k < BERT_LAYER ==> s[BERT_EMBEDDINGS + l * BERT_LAYER + k] == LayerSlot(d, l, k)
    requires forall i :: 0 <= i < |s| && !(0 <= i - (BERT_EMBEDDINGS + l * BERT_LAYER) < BERT_LAYER) ==>
      s[i] == slots[i]
    ensures Placed(d, s, l + 1)
  {
    hide LayerSlot, EmbeddingSlot;
    forall m, k | 0 <= m < l + 1 && 0 <= k < BERT_LAYER
      ensures At(s, m, k) == LayerSlot(d, m, k)
    {
      if m < l {
        assert At(slots, m, k) == LayerSlot(d, m, k);
      }
    }
  }

  // ---- What the slots hold ----

  predicate Inside(d: Model, owned: seq<seq<real>>, v: View) {
    match v
    case Empty => true
    case Given(t) => t < |d.tensors|
    case Owned(i, at, n) => i < |owned| && at + n <= |owned[i]|
  }

  function Values(d: Model, owned: seq<seq<real>>, v: View): seq<real> {
    match v
    case Empty => []
    case Given(t) => Data(d, t)
    case Owned(i, at, n) => if at + n <= |Vector(owned, i)| then Vector(owned, i)[at..at + n] else []
  }

  lemma TensorFits(d: Model, l: nat, k: nat)
    requires l < d.layers && k < PerLayer(d)
    ensures Tensor(d, l, k) < Embeddings(d) + d.layers * PerLayer(d)
  {
    RowFits(d.layers, PerLayer(d), l);
  }

  /** Every slot is inside what it points at. */
  lemma EverySlotIsInside(d: Model, slots: seq<View>, owned: seq<seq<real>>, i: nat)
    requires Made(d, slots, owned) && i < |slots|
    ensures Inside(d, owned, slots[i])
  {
    hide LayerOwned, LayerSlot, LayerShaped;
    if i >= BERT_EMBEDDINGS {
      var l, k := (i - BERT_EMBEDDINGS) / BERT_LAYER, (i - BERT_EMBEDDINGS) % BERT_LAYER;
      LayerSlotIsInside(d, slots, owned, l, k);
      assert At(slots, l, k) == slots[i];
    } else {
      assert slots[i] == EmbeddingSlot(d, i);
    }
  }

  lemma LayerSlotIsInside(d: Model, slots: seq<View>, owned: seq<seq<real>>, l: nat, k: nat)
    requires Made(d, slots, owned) && l < d.layers && k < BERT_LAYER
    ensures Inside(d, owned, At(slots, l, k))
  {
    hide Done, SideBySide, Qkv, Gate, Up, Tensor, LayerShaped, LayerSlot, Embeddings, PerLayer;
    assert At(slots, l, k) == LayerSlot(d, l, k);
    assert LayerOwned(d, owned, l);
    SlotFits(d, l, k);
    var h := d.hidden;
    ThreeSquares(h);
    assert Vector(owned, 1 + 2 * l) == owned[1 + 2 * l] && Vector(owned, 2 + 2 * l) == Vector(owned, 2 + 2 * l);
  }

  lemma ThreeSquares(h: nat)
    ensures 3 * h * h == 3 * (h * h)
  {
  }

  /** A slot's tensor is one of the model's; its vector is one made, long enough. */
  lemma SlotFits(d: Model, l: nat, k: nat)
    requires l < d.layers && k < BERT_LAYER
    ensures var v := LayerSlot(d, l, k);
      && (v.Given? ==> v.tensor < Embeddings(d) + d.layers * PerLayer(d))
      && (v.Owned? ==>
            || (v.vector == 0 && v.at == 0 && v.count == if k == 11 then 2 * d.inter else d.hidden)
            || (v.vector == 1 + 2 * l && v.at + v.count <= 3 * (d.hidden * d.hidden))
            || (v.vector == 2 + 2 * l && v.at == 0 && v.count == 2 * d.inter * d.hidden))
  {
    hide Tensor;
    for j := 0 to PerLayer(d)
      invariant forall i :: 0 <= i < j ==> Tensor(d, l, i) < Embeddings(d) + d.layers * PerLayer(d)
    {
      TensorFits(d, l, j);
    }
  }

  /** Every bias the family lacks reads zeros, as many as it needs. */
  lemma AbsentBiasesAreZero(d: Model, slots: seq<View>, owned: seq<seq<real>>, l: nat, k: nat)
    requires Made(d, slots, owned) && l < d.layers && k < BERT_LAYER
    requires At(slots, l, k).Owned? && At(slots, l, k).vector == 0
    ensures var v := Values(d, owned, At(slots, l, k));
      |v| == (if k == 11 then 2 * d.inter else d.hidden) && forall i :: 0 <= i < |v| ==> v[i] == 0.0
  {
    hide Done, SideBySide, Qkv, Gate, Up, Tensor, LayerShaped, LayerSlot, Embeddings, PerLayer, LayerOwned;
    assert At(slots, l, k) == LayerSlot(d, l, k);
    SlotFits(d, l, k);
  }

  /** Q, K and V are rows 0, hidden and 2 hidden on of the layer's vector. */
  lemma SlotsAreTheThirds(d: Model, slots: seq<View>, owned: seq<seq<real>>, l: nat, third: nat, x: seq<real>, r: nat)
    requires Made(d, slots, owned) && l < d.layers && third < 3 && |x| == d.hidden && r < d.hidden
    ensures ColumnOf(x, Values(d, owned, At(slots, l, 2 * third)), d.hidden, r) ==
            ColumnOf(x, Vector(owned, 1 + 2 * l), d.hidden, third * d.hidden + r)
  {
    hide Done, SideBySide, Qkv, Gate, Up, Tensor, LayerShaped, ColumnOf, LayerSlot;
    assert At(slots, l, 2 * third) == LayerSlot(d, l, 2 * third);
    assert LayerOwned(d, owned, l);
    var h, n := d.hidden, d.hidden * d.hidden;
    ThirdSlot(d, l, third, n);
    ThreeSquares(h);
    ThirdOf(h, n, third, r);
    PartColumn(Vector(owned, 1 + 2 * l), third * n, n, h, x, r, r * h, third * h + r);
  }

  lemma ThirdSlot(d: Model, l: nat, third: nat, n: nat)
    requires third < 3 && n == d.hidden * d.hidden
    ensures LayerSlot(d, l, 2 * third) == Owned(1 + 2 * l, third * n, n)
  {
  }

  lemma ThirdOf(h: nat, n: nat, third: nat, r: nat)
    requires n == h * h && third < 3 && r < h
    ensures (third * h + r) * h == third * n + r * h && r * h + h <= n && third * n + n <= 3 * n
  {
    RowFits(h, h, r);
  }

  /** Row r of a part of m is the row of m it starts `at` further on. */
  lemma PartColumn(m: seq<real>, at: nat, n: nat, h: nat, x: seq<real>, r: nat, off: nat, r': nat)
    requires |x| == h && at + n <= |m| && off == r * h && off + h <= n && r' * h == at + off
    ensures ColumnOf(x, m[at..at + n], h, r) == ColumnOf(x, m, h, r')
  {
    hide Dot;
    RowOfPart(m, at, n, off, h);
  }

  lemma RowOfPart(m: seq<real>, at: nat, n: nat, x: nat, h: nat)
    requires at + n <= |m| && x + h <= n
    ensures m[at..at + n][x..x + h] == m[at + x..at + x + h]
  {
    var a, b := m[at..at + n][x..x + h], m[at + x..at + x + h];
    assert forall i :: 0 <= i < h ==> a[i] == b[i];
  }

  /** The score of query x and key y in head g, from a Q and a K weight. */
  function SlotScore(x: seq<real>, y: seq<real>, q: seq<real>, k: seq<real>, h: nat, hd: nat, g: nat,
                     cosX: Turn, sinX: Turn, cosY: Turn, sinY: Turn): real
    requires hd > 0 && |x| == |y| == h
  {
    Score(PairsTurned(ColumnsOf(x, q, h), hd, cosX, sinX), PairsTurned(ColumnsOf(y, k, h), hd, cosY, sinY),
          Base(hd, g), Base(hd, g), hd)
  }

  /** A third's columns turn as they do in the whole. */
  lemma ThirdTurns(v: Columns, v': Columns, h: nat, heads: nat, hd: nat, third: nat, cos: Turn, sin: Turn, g: nat,
                   j: nat)
    requires Heads(h, heads, hd) && third < 2 && g < heads && j < hd
    requires forall r :: 0 <= r < h ==> v'(r) == v(third * h + r)
    ensures TurnedPair(v', hd, cos, sin, Base(hd, g) + j) == TurnedPair(v, hd, cos, sin, third * h + Base(hd, g) + j)
  {
    hide TurnedPair;
    var c, b := j / 2, third * heads + g;
    PairTurnsAt(v', h, heads, hd, cos, sin, g, c);
    PairTurnsAt(v, h, heads, hd, cos, sin, b, c);
    assert b * hd == third * h + g * hd;
    Join(g, 2 * c, heads, hd);
    Join(g, 2 * c + 1, heads, hd);
  }

  /** Columns c of a and b, counted from where each starts, are those of a'
      and b'. */
  predicate SameAt(a: Columns, b: Columns, a': Columns, b': Columns, i: nat, j: nat, i': nat, j': nat, c: nat) {
    a'(i' + c) == a(i + c) && b'(j' + c) == b(j + c)
  }

  lemma IsSameAt(a: Columns, b: Columns, a': Columns, b': Columns, i: nat, j: nat, i': nat, j': nat, c: nat)
    requires a'(i' + c) == a(i + c) && b'(j' + c) == b(j + c)
    ensures SameAt(a, b, a', b', i, j, i', j', c)
  {
  }

  lemma {:induction false} ScoresAgree(a: Columns, b: Columns, a': Columns, b': Columns, i: nat, j: nat, i': nat,
                                       j': nat, n: nat)
    requires forall c :: 0 <= c < n ==> SameAt(a, b, a', b', i, j, i', j', c)
    ensures Score(a', b', i', j', n) == Score(a, b, i, j, n)
  {
    if n > 0 {
      ScoresAgree(a, b, a', b', i, j, i', j', n - 1);
      assert SameAt(a, b, a', b', i, j, i', j', n - 1);
      SameTerm(a', b', i' + n - 1, j' + n - 1, a, b, i + n - 1, j + n - 1);
    }
  }

  /** The scores of the Q and the K slot are those of the layer's vector. */
  lemma SlotsScoreAsTheVector(d: Model, slots: seq<View>, owned: seq<seq<real>>, l: nat, x: seq<real>, y: seq<real>,
                              g: nat, cosX: Turn, sinX: Turn, cosY: Turn, sinY: Turn)
    requires Made(d, slots, owned) && l < d.layers && |x| == |y| == d.hidden && g < d.heads
    ensures SlotScore(x, y, Values(d, owned, At(slots, l, 0)), Values(d, owned, At(slots, l, 2)), d.hidden,
                      d.hidden / d.heads, g, cosX, sinX, cosY, sinY) ==
            SessionScore(x, y, Vector(owned, 1 + 2 * l), d.hidden, d.hidden / d.heads, g, cosX, sinX, cosY, sinY)
  {
    hide Made, Values, At, ColumnOf, TurnedPair, SameAt;
    var h, hd, w := d.hidden, d.hidden / d.heads, Vector(owned, 1 + 2 * l);
    HeadsAre(d, slots, owned);
    var q, k := ColumnsOf(x, Values(d, owned, At(slots, l, 0)), h), ColumnsOf(y, Values(d, owned, At(slots, l, 2)), h);
    var vx, vy := ColumnsOf(x, w, h), ColumnsOf(y, w, h);
    forall r | 0 <= r < h
      ensures q(r) == vx(0 * h + r) && k(r) == vy(1 * h + r)
    {
      SlotsAreTheThirds(d, slots, owned, l, 0, x, r);
      SlotsAreTheThirds(d, slots, owned, l, 1, y, r);
    }
    var base, from := Base(hd, g), h + Base(hd, g);
    var a, b := PairsTurned(vx, hd, cosX, sinX), PairsTurned(vy, hd, cosY, sinY);
    var a', b' := PairsTurned(q, hd, cosX, sinX), PairsTurned(k, hd, cosY, sinY);
    forall c | 0 <= c < hd
      ensures SameAt(a, b, a', b', base, from, base, base, c)
    {
      ThirdTurns(vx, q, h, d.heads, hd, 0, cosX, sinX, g, c);
      ThirdTurns(vy, k, h, d.heads, hd, 1, cosY, sinY, g, c);
      IsSameAt(a, b, a', b', base, from, base, base, c);
    }
    ScoresAgree(a, b, a', b', base, from, base, base, hd);
  }

  lemma HeadsAre(d: Model, slots: seq<View>, owned: seq<seq<real>>)
    requires Made(d, slots, owned)
    ensures Heads(d.hidden, d.heads, d.hidden / d.heads)
  {
  }

  /** From its slots a session computes the layer the family stores: every
      score of every head as rotate_half of the stored Q and K gives it, V as
      stored, and the gated product's act(gate) * up. */
  lemma TheSlotsRunTheStoredLayer(d: Model, slots: seq<View>, owned: seq<seq<real>>, l: nat, x: seq<real>,
                                  y: seq<real>, g: nat,
                                  cosX: Turn, sinX: Turn, cosY: Turn, sinY: Turn, r: nat, j: nat, act: real -> real)
    requires Made(d, slots, owned) && l < d.layers && |x| == |y| == d.hidden
    requires g < d.heads && r < d.hidden && j < d.inter
    ensures SlotScore(x, y, Values(d, owned, At(slots, l, 0)), Values(d, owned, At(slots, l, 2)), d.hidden,
                      d.hidden / d.heads, g, cosX, sinX, cosY, sinY) ==
            StoredScore(x, y, Qkv(d, l), d.hidden, d.hidden / d.heads, g, cosX, sinX, cosY, sinY)
    ensures ColumnOf(x, Values(d, owned, At(slots, l, 4)), d.hidden, r) ==
      ColumnOf(x, Qkv(d, l), d.hidden, 2 * d.hidden + r)
    ensures var ffn := Values(d, owned, At(slots, l, 10));
      act(ColumnOf(x, ffn, d.hidden, 2 * j)) * ColumnOf(x, ffn, d.hidden, 2 * j + 1) ==
      act(ColumnOf(x, Gate(d, l), d.hidden, j)) * ColumnOf(x, Up(d, l), d.hidden, j)
  {
    hide Done, SideBySide, Qkv, Gate, Up, Tensor, LayerShaped, ColumnOf, SessionScore, StoredScore, SlotScore;
    var h, hd := d.hidden, d.hidden / d.heads;
    assert LayerOwned(d, owned, l);
    assert h == d.heads * hd;
    SlotsScoreAsTheVector(d, slots, owned, l, x, y, g, cosX, sinX, cosY, sinY);
    EveryScoreIsTheStoredOne(x, y, Qkv(d, l), Vector(owned, 1 + 2 * l), h, d.heads, hd, g, cosX, sinX, cosY, sinY);
    SlotsAreTheThirds(d, slots, owned, l, 2, x, r);
    EveryValueIsTheStoredOne(x, Qkv(d, l), Vector(owned, 1 + 2 * l), h, hd, 2 * h + r);
    assert At(slots, l, 10) == LayerSlot(d, l, 10);
    assert Values(d, owned, At(slots, l, 10)) == Vector(owned, 2 + 2 * l);
    OneProductGates(x, Vector(owned, 2 + 2 * l), Gate(d, l), Up(d, l), h, d.inter, j, act);
  }
}
