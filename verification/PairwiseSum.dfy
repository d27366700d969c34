/** bundle/src/static_reference.rs's pairwise_squares: which additions it makes,
    and so how far rounding can take it from the sum. */
module PairwiseSum {

  /** A sum as it was added up. */
  datatype Expr<V> = Zero | Square(v: V) | Add(left: Expr<V>, right: Expr<V>)

  /** The values an arithmetic gives: F32's, or any other. */
  datatype Arithmetic<!V> = Arithmetic(zero: V, square: V -> V, add: (V, V) -> V)

  function Value<V>(e: Expr<V>, a: Arithmetic<V>): V {
    match e
    case Zero => a.zero
    case Square(v) => a.square(v)
    case Add(l, r) => a.add(Value(l, a), Value(r, a))
  }

  /** e and then the squares of x one by one. */
  function Then<V>(e: Expr<V>, x: seq<V>): Expr<V> {
    if x == [] then e else Add(Then(e, x[..|x| - 1]), Square(x[|x| - 1]))
  }

  /** Running sum k of the first blocks of eight. */
  function Running<V>(x: seq<V>, k: nat, blocks: nat): Expr<V>
    requires k < 8 && 0 < blocks && 8 * blocks <= |x|
    decreases blocks
  {
    if blocks == 1 then Square(x[k]) else Add(Running(x, k, blocks - 1), Square(x[8 * (blocks - 1) + k]))
  }

  /** Eight sums added as a tree. */
  function Tree<V>(a: Expr<V>, b: Expr<V>, c: Expr<V>, d: Expr<V>, e: Expr<V>, f: Expr<V>, g: Expr<V>,
                   h: Expr<V>): Expr<V> {
    Add(Add(Add(a, b), Add(c, d)), Add(Add(e, f), Add(g, h)))
  }

  function Eight<V>(x: seq<V>, blocks: nat): Expr<V>
    requires 0 < blocks && 8 * blocks <= |x|
  {
    Tree(Running(x, 0, blocks), Running(x, 1, blocks), Running(x, 2, blocks), Running(x, 3, blocks),
         Running(x, 4, blocks), Running(x, 5, blocks), Running(x, 6, blocks), Running(x, 7, blocks))
  }

  function Half(n: nat): (half: nat)
    ensures half <= n
    ensures n > 128 ==> 0 < half < n
  {
    n / 2 - n / 2 % 8
  }

  /** The additions made for x. */
  function Sum<V>(x: seq<V>): Expr<V>
    decreases |x|
  {
    if |x| < 8 then Then(Zero, x)
    else if |x| > 128 then Add(Sum(x[..Half(|x|)]), Sum(x[Half(|x|)..]))
    else Then(Eight(x, |x| / 8), x[|x| - |x| % 8..])
  }

  /** The function as it runs, over any arithmetic. */
  method PairwiseSquares<V(0)>(x: seq<V>, a: Arithmetic<V>) returns (s: V)
    ensures s == Value(Sum(x), a)
    decreases |x|
  {
    var n := |x|;
    if n < 8 {
      s := Fold(a.zero, x, a, Zero);
      return;
    }
    if n > 128 {
      var half := n / 2 - n / 2 % 8;
      assert half == Half(n);
      var left := PairwiseSquares(x[..half], a);
      var right := PairwiseSquares(x[half..], a);
      return a.add(left, right);
    }
    var tree := EightSums(x, a);
    s := Fold(tree, x[n - n % 8..], a, Eight(x, n / 8));
  }

  /** The whole blocks of eight, in eight running sums. */
  method EightSums<V(0)>(x: seq<V>, a: Arithmetic<V>) returns (tree: V)
    requires 8 <= |x|
    ensures tree == Value(Eight(x, |x| / 8), a)
  {
    hide Value;
    var n := |x|;
    var r := new V[8];
    for k := 0 to 8
      invariant forall j :: 0 <= j < k ==> r[j] == Value(Running(x, j, 1), a)
    {
      r[k] := a.square(x[k]);
      FirstOfRunning(x, k, a);
    }
    for block := 1 to n / 8
      invariant forall j :: 0 <= j < 8 ==> r[j] == Value(Running(x, j, block), a)
    {
      AddBlock(r, x, block, a);
    }
    tree := a.add(a.add(a.add(r[0], r[1]), a.add(r[2], r[3])), a.add(a.add(r[4], r[5]), a.add(r[6], r[7])));
    ValueOfTree(a, Running(x, 0, n / 8), Running(x, 1, n / 8), Running(x, 2, n / 8), Running(x, 3, n / 8),
                Running(x, 4, n / 8), Running(x, 5, n / 8), Running(x, 6, n / 8), Running(x, 7, n / 8));
  }

  /** A block of eight squares, each added to its running sum. */
  method AddBlock<V>(r: array<V>, x: seq<V>, block: nat, a: Arithmetic<V>)
    requires r.Length == 8 && 0 < block && 8 * (block + 1) <= |x|
    requires forall j :: 0 <= j < 8 ==> r[j] == Value(Running(x, j, block), a)
    modifies r
    ensures forall j :: 0 <= j < 8 ==> r[j] == Value(Running(x, j, block + 1), a)
  {
    hide Value, Running;
    for k := 0 to 8
      invariant forall j :: 0 <= j < k ==> r[j] == Value(Running(x, j, block + 1), a)
      invariant forall j :: k <= j < 8 ==> r[j] == Value(Running(x, j, block), a)
    {
      r[k] := a.add(r[k], a.square(x[8 * block + k]));
      NextOfRunning(x, k, block, a);
    }
  }

  lemma FirstOfRunning<V>(x: seq<V>, k: nat, a: Arithmetic<V>)
    requires k < 8 <= |x|
    ensures Value(Running(x, k, 1), a) == a.square(x[k])
  {
  }

  lemma NextOfRunning<V>(x: seq<V>, k: nat, blocks: nat, a: Arithmetic<V>)
    requires k < 8 && 0 < blocks && 8 * (blocks + 1) <= |x|
    ensures Value(Running(x, k, blocks + 1), a) == a.add(Value(Running(x, k, blocks), a), a.square(x[8 * blocks + k]))
  {
    assert Running(x, k, blocks + 1) == Add(Running(x, k, blocks), Square(x[8 * blocks + k]));
  }

  lemma ValueOfTree<V>(m: Arithmetic<V>, a: Expr<V>, b: Expr<V>, c: Expr<V>, d: Expr<V>, e: Expr<V>, f: Expr<V>,
                       g: Expr<V>, h: Expr<V>)
    ensures Value(Tree(a, b, c, d, e, f, g, h), m) ==
      m.add(m.add(m.add(Value(a, m), Value(b, m)), m.add(Value(c, m), Value(d, m))),
            m.add(m.add(Value(e, m), Value(f, m)), m.add(Value(g, m), Value(h, m))))
  {
    var l, r := Add(Add(a, b), Add(c, d)), Add(Add(e, f), Add(g, h));
    assert Value(l, m) == m.add(Value(Add(a, b), m), Value(Add(c, d), m));
    assert Value(r, m) == m.add(Value(Add(e, f), m), Value(Add(g, h), m));
  }

  /** x's squares added to s one by one. */
  method Fold<V>(start: V, x: seq<V>, a: Arithmetic<V>, ghost e: Expr<V>) returns (s: V)
    requires start == Value(e, a)
    ensures s == Value(Then(e, x), a)
  {
    s := start;
    for i := 0 to |x|
      invariant s == Value(Then(e, x[..i]), a)
    {
      assert x[..i + 1][..i] == x[..i];
      s := a.add(s, a.square(x[i]));
    }
    assert x[..|x|] == x;
  }

  // ---- Each square once ----

  type Weight<!V> = V -> real

  /** The sum of a weight over the leaves of e. */
  function Weigh<V>(e: Expr<V>, w: Weight<V>): real {
    match e
    case Zero => 0.0
    case Square(v) => w(v)
    case Add(l, r) => Weigh(l, w) + Weigh(r, w)
  }

  function Total<V>(x: seq<V>, w: Weight<V>): real {
    if x == [] then 0.0 else Total(x[..|x| - 1], w) + w(x[|x| - 1])
  }

  lemma {:induction false} TotalOfBoth<V>(x: seq<V>, y: seq<V>, w: Weight<V>)
    ensures Total(x + y, w) == Total(x, w) + Total(y, w)
  {
    if y == [] {
      assert x + y == x;
    } else {
      assert (x + y)[..|x + y| - 1] == x + y[..|y| - 1];
      TotalOfBoth(x, y[..|y| - 1], w);
    }
  }

  lemma {:induction false} ThenWeighs<V>(e: Expr<V>, x: seq<V>, w: Weight<V>)
    ensures Weigh(Then(e, x), w) == Weigh(e, w) + Total(x, w)
  {
    if x != [] {
      ThenWeighs(e, x[..|x| - 1], w);
    }
  }

  lemma TotalOfOneMore<V>(x: seq<V>, i: nat, j: nat, w: Weight<V>)
    requires j == i + 1 <= |x|
    ensures Total(x[..j], w) == Total(x[..i], w) + w(x[i])
  {
    assert x[..j][..i] == x[..i];
  }

  function RunningWeighs<V>(x: seq<V>, k: nat, blocks: nat, w: Weight<V>): real
    requires k < 8 && 8 * blocks <= |x|
  {
    if blocks == 0 then 0.0 else Weigh(Running(x, k, blocks), w)
  }

  lemma RunningGrows<V>(x: seq<V>, k: nat, blocks: nat, w: Weight<V>)
    requires k < 8 && 8 * (blocks + 1) <= |x|
    ensures RunningWeighs(x, k, blocks + 1, w) == RunningWeighs(x, k, blocks, w) + w(x[8 * blocks + k])
  {
    var last: Expr<V> := Square(x[8 * blocks + k]);
    assert Weigh(last, w) == w(x[8 * blocks + k]);
    assert Running(x, k, blocks + 1) == if blocks == 0 then last else Add(Running(x, k, blocks), last);
  }

  function AllRunningWeigh<V>(x: seq<V>, blocks: nat, w: Weight<V>): real
    requires 8 * blocks <= |x|
  {
    RunningWeighs(x, 0, blocks, w) + RunningWeighs(x, 1, blocks, w) + RunningWeighs(x, 2, blocks, w)
    + RunningWeighs(x, 3, blocks, w) + RunningWeighs(x, 4, blocks, w) + RunningWeighs(x, 5, blocks, w)
    + RunningWeighs(x, 6, blocks, w) + RunningWeighs(x, 7, blocks, w)
  }

  lemma {:induction false} RunningsWeigh<V>(x: seq<V>, blocks: nat, w: Weight<V>)
    requires 8 * blocks <= |x|
    ensures AllRunningWeigh(x, blocks, w) == Total(x[..8 * blocks], w)
  {
    if blocks > 0 {
      hide RunningWeighs, Total;
      var b := blocks - 1;
      RunningsWeigh(x, b, w);
      RunningGrows(x, 0, b, w);
      RunningGrows(x, 1, b, w);
      RunningGrows(x, 2, b, w);
      RunningGrows(x, 3, b, w);
      RunningGrows(x, 4, b, w);
      RunningGrows(x, 5, b, w);
      RunningGrows(x, 6, b, w);
      RunningGrows(x, 7, b, w);
      BlockWeighs(x, 8 * b, w);
    }
  }

  lemma BlockWeighs<V>(x: seq<V>, b: nat, w: Weight<V>)
    requires b + 8 <= |x|
    ensures Total(x[..b + 8], w) == Total(x[..b], w) + w(x[b]) + w(x[b + 1]) + w(x[b + 2]) + w(x[b + 3])
      + w(x[b + 4]) + w(x[b + 5]) + w(x[b + 6]) + w(x[b + 7])
  {
    TotalOfOneMore(x, b, b + 1, w);
    TotalOfOneMore(x, b + 1, b + 2, w);
    TotalOfOneMore(x, b + 2, b + 3, w);
    TotalOfOneMore(x, b + 3, b + 4, w);
    TotalOfOneMore(x, b + 4, b + 5, w);
    TotalOfOneMore(x, b + 5, b + 6, w);
    TotalOfOneMore(x, b + 6, b + 7, w);
    TotalOfOneMore(x, b + 7, b + 8, w);
  }

  lemma TreeWeighs<V>(a: Expr<V>, b: Expr<V>, c: Expr<V>, d: Expr<V>, e: Expr<V>, f: Expr<V>, g: Expr<V>, h: Expr<V>,
                      w: Weight<V>)
    ensures Weigh(Tree(a, b, c, d, e, f, g, h), w) ==
      Weigh(a, w) + Weigh(b, w) + Weigh(c, w) + Weigh(d, w) + Weigh(e, w) + Weigh(f, w) + Weigh(g, w) + Weigh(h, w)
  {
    var l, r := Add(Add(a, b), Add(c, d)), Add(Add(e, f), Add(g, h));
    assert Weigh(l, w) == Weigh(Add(a, b), w) + Weigh(Add(c, d), w);
    assert Weigh(r, w) == Weigh(Add(e, f), w) + Weigh(Add(g, h), w);
  }

  lemma EightWeighs<V>(x: seq<V>, blocks: nat, w: Weight<V>)
    requires 0 < blocks && 8 * blocks <= |x|
    ensures Weigh(Eight(x, blocks), w) == Total(x[..8 * blocks], w)
  {
    hide Weigh, Running, Tree, Total;
    RunningsWeigh(x, blocks, w);
    TreeWeighs(Running(x, 0, blocks), Running(x, 1, blocks), Running(x, 2, blocks), Running(x, 3, blocks),
               Running(x, 4, blocks), Running(x, 5, blocks), Running(x, 6, blocks), Running(x, 7, blocks), w);
  }

  /** Whatever is summed over the squares added, each element counts once. */
  lemma {:induction false} EverySquareOnce<V>(x: seq<V>, w: Weight<V>)
    ensures Weigh(Sum(x), w) == Total(x, w)
    decreases |x|
  {
    hide Eight, Then;
    if |x| < 8 {
      ThenWeighs(Zero, x, w);
    } else if |x| > 128 {
      EverySquareOnce(x[..Half(|x|)], w);
      EverySquareOnce(x[Half(|x|)..], w);
      TotalOfBoth(x[..Half(|x|)], x[Half(|x|)..], w);
      assert x == x[..Half(|x|)] + x[Half(|x|)..];
    } else {
      EightWeighs(x, |x| / 8, w);
      ThenWeighs(Eight(x, |x| / 8), x[|x| - |x| % 8..], w);
      TotalOfBoth(x[..8 * (|x| / 8)], x[|x| - |x| % 8..], w);
      assert x == x[..8 * (|x| / 8)] + x[|x| - |x| % 8..];
    }
  }

  // ---- How many additions one square passes through ----

  function Max(a: nat, b: nat): nat { if a < b then b else a }

  function Depth<V>(e: Expr<V>): nat {
    match e
    case Zero => 0
    case Square(_) => 0
    case Add(l, r) => 1 + Max(Depth(l), Depth(r))
  }

  lemma {:induction false} DepthOfThen<V>(e: Expr<V>, x: seq<V>)
    ensures Depth(Then(e, x)) == Depth(e) + |x|
  {
    if x != [] {
      DepthOfThen(e, x[..|x| - 1]);
    }
  }

  lemma {:induction false} DepthOfRunning<V>(x: seq<V>, k: nat, blocks: nat)
    requires k < 8 && 0 < blocks && 8 * blocks <= |x|
    ensures Depth(Running(x, k, blocks)) == blocks - 1
  {
    if blocks > 1 {
      DepthOfRunning(x, k, blocks - 1);
    }
  }

  function Pow2(k: nat): nat { if k == 0 then 1 else 2 * Pow2(k - 1) }

  lemma DepthOfTree<V>(a: Expr<V>, b: Expr<V>, c: Expr<V>, d: Expr<V>, e: Expr<V>, f: Expr<V>, g: Expr<V>, h: Expr<V>,
                       n: nat)
    requires Depth(a) == Depth(b) == Depth(c) == Depth(d) == Depth(e) == Depth(f) == Depth(g) == Depth(h) == n
    ensures Depth(Tree(a, b, c, d, e, f, g, h)) == n + 3
  {
    var l, r := Add(Add(a, b), Add(c, d)), Add(Add(e, f), Add(g, h));
    assert Depth(Add(a, b)) == Depth(Add(c, d)) == Depth(Add(e, f)) == Depth(Add(g, h)) == n + 1;
    assert Depth(l) == Depth(r) == n + 2;
  }

  lemma ShallowUpTo128<V>(x: seq<V>)
    requires |x| <= 128
    ensures Depth(Sum(x)) <= 24
  {
    hide Depth, Running, Tree;
    if |x| < 8 {
      DepthOfThen<V>(Zero, x);
      assert Depth<V>(Zero) == 0 by { DepthOfZero<V>(); }
    } else {
      var b := |x| / 8;
      DepthOfThen(Eight(x, b), x[|x| - |x| % 8..]);
      for k := 0 to 8
        invariant forall j :: 0 <= j < k ==> Depth(Running(x, j, b)) == b - 1
      {
        DepthOfRunning(x, k, b);
      }
      DepthOfTree(Running(x, 0, b), Running(x, 1, b), Running(x, 2, b), Running(x, 3, b),
                  Running(x, 4, b), Running(x, 5, b), Running(x, 6, b), Running(x, 7, b), b - 1);
    }
  }

  lemma DepthOfZero<V>()
    ensures Depth<V>(Zero) == 0
  {
  }

  /** No square passes through more than 24 + k additions when there are at most
      16 + 112 * 2^k of them. */
  lemma {:induction false} DepthIsLogarithmic<V>(x: seq<V>, k: nat)
    requires |x| <= 16 + 112 * Pow2(k)
    ensures Depth(Sum(x)) <= 24 + k
    decreases k
  {
    if |x| <= 128 {
      ShallowUpTo128(x);
    } else {
      DepthIsLogarithmic(x[..Half(|x|)], k - 1);
      DepthIsLogarithmic(x[Half(|x|)..], k - 1);
    }
  }

  // ---- The sum, exactly and rounded ----

  function Exact(): Arithmetic<real> { Arithmetic(0.0, v => v * v, (a, b) => a + b) }

  function SumOfSquares(x: seq<real>): real { Total(x, v => v * v) }

  lemma {:induction false} ExactIsWeight(e: Expr<real>, a: Arithmetic<real>, w: Weight<real>)
    requires a.zero == 0.0 && (forall v :: a.square(v) == w(v)) && (forall p, q :: a.add(p, q) == p + q)
    ensures Value(e, a) == Weigh(e, w)
  {
    match e
    case Zero =>
    case Square(v) =>
    case Add(l, r) =>
      ExactIsWeight(l, a, w);
      ExactIsWeight(r, a, w);
  }

  /** In exact arithmetic it is the plain sum of the squares. */
  lemma ItIsTheSum(x: seq<real>)
    ensures Value(Sum(x), Exact()) == SumOfSquares(x)
  {
    ExactIsWeight(Sum(x), Exact(), v => v * v);
    EverySquareOnce(x, v => v * v);
  }

  /** Each square and each sum within a factor of 1 - u and 1 + u, as rounding
      to nearest gives while nothing overflows or underflows. */
  ghost predicate Rounds(a: Arithmetic<real>, u: real) {
    && 0.0 <= u < 1.0 && a.zero == 0.0
    && (forall v: real :: Near(a.square(v), v * v, u))
    && (forall p: real, q: real :: p >= 0.0 && q >= 0.0 ==> Near(a.add(p, q), p + q, u))
  }

  predicate Near(r: real, x: real, u: real) { x * (1.0 - u) <= r <= x * (1.0 + u) }

  function Power(b: real, n: nat): real { if n == 0 then 1.0 else Power(b, n - 1) * b }

  lemma ScaleUp(s: real, p: real, q: real)
    requires s >= 0.0 && p <= q
    ensures s * p <= s * q && p * s <= q * s
  {
  }

  lemma {:induction false} PowersBounded(u: real, n: nat)
    requires 0.0 <= u < 1.0
    ensures 0.0 <= Power(1.0 - u, n) && Power(1.0 - u, n + 1) <= Power(1.0 - u, n)
    ensures 1.0 <= Power(1.0 + u, n) <= Power(1.0 + u, n + 1)
  {
    if n > 0 {
      PowersBounded(u, n - 1);
      ScaleUp(1.0 - u, 0.0, Power(1.0 - u, n - 1));
      ScaleUp(1.0 + u, 1.0, Power(1.0 + u, n - 1));
    }
    ScaleUp(Power(1.0 - u, n), 1.0 - u, 1.0);
    ScaleUp(Power(1.0 + u, n), 1.0, 1.0 + u);
  }

  lemma {:induction false} PowersOrdered(u: real, m: nat, n: nat)
    requires 0.0 <= u < 1.0 && m <= n
    ensures 0.0 <= Power(1.0 - u, n) <= Power(1.0 - u, m)
    ensures 1.0 <= Power(1.0 + u, m) <= Power(1.0 + u, n)
    decreases n - m
  {
    hide Power;
    PowersBounded(u, m);
    if m < n {
      PowersOrdered(u, m + 1, n);
    }
  }

  /** A rounded sum of squares against the exact one. */
  lemma {:induction false} RoundedWithinDepth(e: Expr<real>, a: Arithmetic<real>, u: real)
    requires Rounds(a, u)
    ensures Within(Value(e, Exact()), Value(e, a), Depth(e) + 1, u)
  {
    hide Within;
    match e
    case Zero =>
      NothingWithin(Depth(e) + 1, u);
    case Square(v) =>
      SquareWithin(v, a, u);
    case Add(l, r) =>
      RoundedWithinDepth(l, a, u);
      RoundedWithinDepth(r, a, u);
      SumWithin(Value(l, Exact()), Value(l, a), Depth(l) + 1, Value(r, Exact()), Value(r, a), Depth(r) + 1, a, u);
  }

  lemma SquareWithin(v: real, a: Arithmetic<real>, u: real)
    requires Rounds(a, u)
    ensures Within(Value(Square(v), Exact()), Value(Square(v), a), Depth(Square(v)) + 1, u)
  {
    SquareIsNotNegative(v);
    var s, r := v * v, a.square(v);
    assert Near(r, s, u);
    OnceWithin(s, r, u);
  }

  /** t is s, n times rounded. */
  predicate Within(s: real, t: real, n: nat, u: real) {
    s >= 0.0 && t >= 0.0 && s * Power(1.0 - u, n) <= t <= s * Power(1.0 + u, n)
  }

  lemma NothingWithin(n: nat, u: real)
    ensures Within(0.0, 0.0, n, u)
  {
  }

  lemma SquareIsNotNegative(v: real)
    ensures v * v >= 0.0
  {
    if v >= 0.0 {
      ScaleUp(v, 0.0, v);
    } else {
      ScaleUp(-v, 0.0, -v);
    }
  }

  lemma OnceWithin(s: real, r: real, u: real)
    requires 0.0 <= u < 1.0 && s >= 0.0 && Near(r, s, u)
    ensures Within(s, r, 1, u)
  {
    assert Power(1.0 - u, 1) == 1.0 - u && Power(1.0 + u, 1) == 1.0 + u;
    hide Power;
    ScaleUp(s, 0.0, 1.0 - u);
  }

  lemma MoreWithin(s: real, t: real, n: nat, m: nat, u: real)
    requires 0.0 <= u < 1.0 && Within(s, t, n, u) && n <= m
    ensures Within(s, t, m, u)
  {
    hide Power;
    PowersOrdered(u, n, m);
    ScaleUp(s, Power(1.0 - u, m), Power(1.0 - u, n));
    ScaleUp(s, Power(1.0 + u, n), Power(1.0 + u, m));
  }

  lemma SumWithin(s: real, t: real, n: nat, s': real, t': real, n': nat, a: Arithmetic<real>, u: real)
    requires Rounds(a, u) && Within(s, t, n, u) && Within(s', t', n', u)
    ensures Within(s + s', a.add(t, t'), Max(n, n') + 1, u)
  {
    var m := Max(n, n');
    hide Power;
    MoreWithin(s, t, n, m, u);
    MoreWithin(s', t', n', m, u);
    assert Near(a.add(t, t'), t + t', u);
    Together(s, s', Power(1.0 - u, m));
    Together(s, s', Power(1.0 + u, m));
    RoundedOnce(s + s', t + t', a.add(t, t'), m, u);
  }

  lemma Together(s: real, s': real, p: real)
    ensures (s + s') * p == s * p + s' * p
  {
  }

  lemma RoundedOnce(s: real, t: real, r: real, n: nat, u: real)
    requires 0.0 <= u < 1.0 && Within(s, t, n, u) && Near(r, t, u)
    ensures Within(s, r, n + 1, u)
  {
    var p, q := Power(1.0 - u, n), Power(1.0 + u, n);
    assert Power(1.0 - u, n + 1) == p * (1.0 - u) && Power(1.0 + u, n + 1) == q * (1.0 + u);
    hide Power;
    ScaleUp(1.0 - u, 0.0, t);
    LowerStep(s, p, 1.0 - u, t, r);
    UpperStep(s, q, 1.0 + u, t, r);
  }

  lemma LowerStep(s: real, p: real, c: real, t: real, r: real)
    requires c >= 0.0 && s * p <= t && t * c <= r
    ensures s * (p * c) <= r
  {
    ScaleUp(c, s * p, t);
    Regroup(s, p, c);
  }

  lemma UpperStep(s: real, q: real, c: real, t: real, r: real)
    requires c >= 0.0 && t <= s * q && r <= t * c
    ensures r <= s * (q * c)
  {
    ScaleUp(c, t, s * q);
    Regroup(s, q, c);
  }

  lemma Regroup(a: real, b: real, c: real)
    ensures a * b * c == a * (b * c)
  {
  }

  /** The rounded result is within a factor of 1 - u and 1 + u to the power 25 + k
      of the sum: the error grows with the logarithm of the count. */
  lemma ItIsNearTheSum(x: seq<real>, a: Arithmetic<real>, u: real, k: nat)
    requires Rounds(a, u) && |x| <= 16 + 112 * Pow2(k)
    ensures SumOfSquares(x) * Power(1.0 - u, 25 + k) <= Value(Sum(x), a) <= SumOfSquares(x) * Power(1.0 + u, 25 + k)
  {
    hide Sum, Power, Rounds;
    ItIsTheSum(x);
    DepthIsLogarithmic(x, k);
    assert 0.0 <= u < 1.0 by { RoundsSmall(a, u); }
    RoundedWithinDepth(Sum(x), a, u);
    MoreWithin(SumOfSquares(x), Value(Sum(x), a), Depth(Sum(x)) + 1, 25 + k, u);
  }

  lemma RoundsSmall(a: Arithmetic<real>, u: real)
    requires Rounds(a, u)
    ensures 0.0 <= u < 1.0
  {
  }

  // ---- The order spelt out ----

  /** Above 128 values the first half is the greatest multiple of 8 up to half. */
  lemma TheHalves<V>(x: seq<V>)
    requires |x| > 128
    ensures Half(|x|) % 8 == 0 && |x| / 2 - 8 < Half(|x|) <= |x| / 2
    ensures Sum(x) == Add(Sum(x[..Half(|x|)]), Sum(x[Half(|x|)..]))
  {
  }

  /** Eleven values: a tree of eight squares and the rest one by one. */
  lemma TheSumOfEleven<V>(x: seq<V>)
    requires |x| == 11
    ensures
      var left := Add(Add(Square(x[0]), Square(x[1])), Add(Square(x[2]), Square(x[3])));
      var right := Add(Add(Square(x[4]), Square(x[5])), Add(Square(x[6]), Square(x[7])));
      Sum(x) == Add(Add(Add(Add(left, right), Square(x[8])), Square(x[9])), Square(x[10]))
  {
    var rest := x[8..];
    assert rest == [x[8], x[9], x[10]] && rest[..2] == [x[8], x[9]] && rest[..1] == [x[8]];
    assert rest[..2][..1] == [x[8]] && rest[..1][..0] == [];
    var e := Eight(x, 1);
    assert Then(e, [x[8]]) == Add(e, Square(x[8])) by {
      assert [x[8]][..0] == [];
    }
    assert Then(e, [x[8], x[9]]) == Add(Then(e, [x[8]]), Square(x[9])) by {
      assert [x[8], x[9]][..1] == [x[8]];
    }
    assert Then(e, rest) == Add(Then(e, [x[8], x[9]]), Square(x[10]));
  }

  /** Running sum k takes every eighth square from k on, in order. */
  lemma ARunningSum<V>(x: seq<V>, k: nat, blocks: nat)
    requires k < 8 && 0 < blocks && 8 * blocks <= |x|
    ensures blocks == 1 ==> Running(x, k, blocks) == Square(x[k])
    ensures blocks > 1 ==> Running(x, k, blocks) == Add(Running(x, k, blocks - 1), Square(x[8 * (blocks - 1) + k]))
  {
  }
}
