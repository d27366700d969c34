/** A CUDA session's kernel choices: what they are, the names of the kernels
    they run (core/cuda/autotune.h, autotune.cpp), and the numeric classes
    those compute in. */
module CudaChoices {

  datatype Tile =
    | Default | T64x64 | T128x64 | T128x128 | T128x128At16x8 | T128x128At4W | T256x128
    | EightWarps | EightWarpsF16 | Swizzled | Swizzled8W | Swizzled256x128 | Swizzled8WF16 | SwizzledRows
    | F16WholeK | F16WholeK3 | F16WholeKRows | F16WholeK256 | Ct | CtK | Cs | Kt

  datatype SkMode = Stream | Tiles

  const SK_MIN_STEPS := 4
  const LN_FUSED_MAX_HIDDEN := 512
  const ROW_LN_WIDTH := 384
  const GEMM_COUNT := 4
  const BIN_COUNT := 5

  /** The GEMMs of a layer by index: qkv, out, ffn1, ffn2. */
  const FFN1 := 2
  const FFN2 := 3

  datatype GemmChoice = GemmChoice(tile: Tile, sk: SkMode, steps: int, tf32: bool)

  datatype Attention =
    | FmaTiled | FmaSplit | Mma64 | Mma128 | Mma128Exact | Mma128Fa32 | Mma128Acc32 | FmaTiled32

  datatype LayerNorm = Separate | Fused

  datatype Pool = Groups | Columns

  datatype Knob = KnobTile | KnobSk | KnobTf32 | KnobAttn | KnobLn | KnobPool

  /** The kernels one bin runs, and which of them were forced and how. */
  datatype BinChoices = BinChoices(
    gemm: seq<GemmChoice>, gemmForced: seq<set<Knob>>, attention: Attention, ln: LayerNorm, forced: set<Knob>)
  {
    predicate Valid() { |gemm| == |gemmForced| == GEMM_COUNT }
  }

  /** Everything a session bakes into its graphs. */
  datatype Choices = Choices(bins: nat, bin: seq<BinChoices>, pool: Pool, poolForced: set<Knob>) {
    ghost predicate Valid() {
      1 <= bins <= BIN_COUNT && |bin| == BIN_COUNT && forall b :: 0 <= b < BIN_COUNT ==> bin[b].Valid()
    }
  }

  datatype Gated = NotGated | GatedGelu | GatedSilu

  /** A session's shape: what a kernel's name depends on. */
  datatype Shape = Shape(hidden: nat, heads: nat, inter: nat, half: bool, tensorCores: bool, gated: Gated) {
    predicate Valid() { heads > 0 }
  }

  predicate F16Accumulates(t: Tile) {
    t in {EightWarpsF16, Swizzled8WF16, F16WholeK, F16WholeK3, F16WholeKRows, F16WholeK256, CtK}
  }

  predicate MmaOf(base: Shape, g: GemmChoice) { base.tensorCores && (base.half || g.tf32) }

  /** A tile that sums in F16 becomes its schedule's tile that sums in F32. */
  function F32SumsOf(t: Tile): (r: Tile)
    ensures !F16Accumulates(r) && r != Default
    ensures t != Default && !F16Accumulates(t) ==> r == t
  {
    match t
    case Default | CtK => Ct
    case EightWarpsF16 => EightWarps
    case Swizzled8WF16 | F16WholeK | F16WholeK3 | F16WholeK256 | F16WholeKRows => Swizzled8W
    case _ => t
  }

  /** K is a multiple of 8 for every GEMM of the layer. */
  predicate WholeLoads(base: Shape) { base.hidden % 8 == 0 && base.inter % 8 == 0 }

  predicate Narrow(which: nat) { which == 1 || which == FFN2 }

  /** The tile that runs when `given` is asked for. */
  function CanonicalTile(which: nat, base: Shape, mma: bool, given: Tile): Tile {
    var t := if mma && base.half && which == FFN2 && !base.gated.NotGated? then F32SumsOf(given) else given;
    if !mma then
      match t
      case T64x64 | T128x128 | T128x128At16x8 => t
      case Cs => if !base.half && base.tensorCores then t else T128x64
      case Kt => if base.half then T128x64 else t
      case _ => T128x64
    else if t == T128x128At16x8 then T128x128
    else if !base.half then
      match t
      case T64x64 | T128x128 | T128x128At4W => t
      case T256x128 => T128x128At4W
      case _ => T128x64
    else
      match t
      case Default => if WholeLoads(base) then CtK else F16WholeK3
      case T256x128 => if Narrow(which) then T128x128At4W else t
      case Swizzled256x128 => if which == FFN1 then t else Swizzled
      case SwizzledRows => if Narrow(which) && base.hidden <= ROW_LN_WIDTH then t else Swizzled8W
      case F16WholeKRows => if Narrow(which) && base.hidden <= ROW_LN_WIDTH then t else F16WholeK3
      case F16WholeK256 => if Narrow(which) then F16WholeK3 else t
      case Ct => if WholeLoads(base) then t else EightWarps
      case CtK => if WholeLoads(base) then t else F16WholeK3
      case _ => t
  }

  /** What runs when g is asked for. */
  function CanonicalGemm(which: nat, base: Shape, g: GemmChoice): GemmChoice {
    var h := g.(tf32 := g.tf32 && !base.half && base.tensorCores);
    h.(tile := CanonicalTile(which, base, MmaOf(base, h), h.tile))
  }

  function CanonicalSteps(g: GemmChoice): GemmChoice {
    if g.sk.Tiles? then g.(steps := 0) else if g.steps <= 0 then g.(steps := SK_MIN_STEPS) else g
  }

  predicate MmaAttention(base: Shape)
    requires base.Valid()
  {
    base.half && base.tensorCores && (base.hidden / base.heads == 32 || base.hidden / base.heads == 64)
  }

  function CanonicalAttention(base: Shape, a: Attention): Attention
    requires base.Valid()
  {
    var mma := MmaAttention(base);
    if mma && a == Mma128Fa32 && base.hidden / base.heads != 32 then Mma128
    else if mma then
      (if a in {Mma128, Mma128Exact, Mma128Fa32, Mma128Acc32} then a else Mma64)
    else if a in {FmaSplit, FmaTiled32} then a
    else FmaTiled
  }

  function CanonicalGemms(base: Shape, gemm: seq<GemmChoice>): (r: seq<GemmChoice>)
    ensures |r| == |gemm|
  {
    seq(|gemm|, g requires 0 <= g < |gemm| => CanonicalSteps(CanonicalGemm(g, base, gemm[g])))
  }

  function CanonicalBin(base: Shape, bc: BinChoices): BinChoices
    requires base.Valid()
  {
    bc.(gemm := CanonicalGemms(base, bc.gemm),
        attention := CanonicalAttention(base, bc.attention),
        ln := if base.hidden > LN_FUSED_MAX_HIDDEN then Separate else bc.ln)
  }

  /** The kernels of c as they run, in every bin. */
  function Canonical(base: Shape, c: Choices): Choices
    requires base.Valid()
  {
    c.(bin := seq(|c.bin|, b requires 0 <= b < |c.bin| => CanonicalBin(base, c.bin[b])))
  }

  /** canonicalize: each bin's GEMMs, attention and LayerNorm in place. */
  method Canonicalize(base: Shape, c: Choices) returns (r: Choices)
    requires base.Valid() && c.Valid()
    ensures r == Canonical(base, c)
  {
    hide CanonicalGemm, CanonicalAttention;
    r := c;
    for b := 0 to BIN_COUNT
      invariant |r.bin| == BIN_COUNT && r.(bin := c.bin) == c
      invariant forall i :: 0 <= i < b ==> r.bin[i] == CanonicalBin(base, c.bin[i])
      invariant forall i :: b <= i < BIN_COUNT ==> r.bin[i] == c.bin[i]
    {
      var bc := r.bin[b];
      for g := 0 to GEMM_COUNT
        invariant |bc.gemm| == GEMM_COUNT && bc.(gemm := c.bin[b].gemm) == c.bin[b]
        invariant forall i :: 0 <= i < g ==> bc.gemm[i] == CanonicalSteps(CanonicalGemm(i, base, c.bin[b].gemm[i]))
        invariant forall i :: g <= i < GEMM_COUNT ==> bc.gemm[i] == c.bin[b].gemm[i]
      {
        var gc := CanonicalGemm(g, base, bc.gemm[g]);
        if gc.sk == Tiles {
          gc := gc.(steps := 0);
        } else if gc.steps <= 0 {
          gc := gc.(steps := SK_MIN_STEPS);
        }
        bc := bc.(gemm := bc.gemm[g := gc]);
      }
      bc := bc.(attention := CanonicalAttention(base, bc.attention));
      if base.hidden > LN_FUSED_MAX_HIDDEN {
        bc := bc.(ln := Separate);
      }
      r := r.(bin := r.bin[b := bc]);
    }
  }

  // ---- What canonical choices are ----

  /** A GEMM's kernel in the terms the kernels are launched by: a tile of its
      own, TF32 only where there is any, and steps that say how many. */
  predicate RunsAsNamed(base: Shape, g: GemmChoice) {
    && g.tile != Default
    && (g.tf32 ==> !base.half && base.tensorCores)
    && (if g.sk.Tiles? then g.steps == 0 else g.steps > 0)
  }

  lemma CanonicalTileIsStable(which: nat, base: Shape, mma: bool, t: Tile)
    ensures CanonicalTile(which, base, mma, CanonicalTile(which, base, mma, t)) == CanonicalTile(which, base, mma, t)
    ensures CanonicalTile(which, base, mma, t) != Default
  {
  }

  /** Canonical choices name what runs, and canonicalizing them again changes
      nothing, for every shape. */
  lemma CanonicalizeIsIdempotent(base: Shape, c: Choices)
    requires base.Valid() && c.Valid()
    ensures Canonical(base, Canonical(base, c)) == Canonical(base, c)
    ensures Canonical(base, c).Valid()
    ensures forall b, g :: 0 <= b < BIN_COUNT && 0 <= g < GEMM_COUNT ==>
      RunsAsNamed(base, Canonical(base, c).bin[b].gemm[g])
  {
    hide CanonicalTile;
    var r := Canonical(base, c);
    forall b, g | 0 <= b < BIN_COUNT && 0 <= g < GEMM_COUNT
      ensures RunsAsNamed(base, r.bin[b].gemm[g])
      ensures CanonicalSteps(CanonicalGemm(g, base, r.bin[b].gemm[g])) == r.bin[b].gemm[g]
    {
      CanonicalGemmIsStable(g, base, c.bin[b].gemm[g]);
    }
    forall b | 0 <= b < BIN_COUNT
      ensures CanonicalBin(base, r.bin[b]) == r.bin[b]
    {
      assert CanonicalGemms(base, r.bin[b].gemm) == r.bin[b].gemm;
    }
    assert Canonical(base, r).bin == r.bin;
  }

  lemma CanonicalGemmIsStable(which: nat, base: Shape, g: GemmChoice)
    ensures var h := CanonicalSteps(CanonicalGemm(which, base, g));
      RunsAsNamed(base, h) && CanonicalSteps(CanonicalGemm(which, base, h)) == h
  {
    hide CanonicalTile;
    var tf32 := g.(tf32 := g.tf32 && !base.half && base.tensorCores);
    CanonicalTileIsStable(which, base, MmaOf(base, tf32), g.tile);
  }

  // ---- Numeric classes ----

  datatype Numeric = F32Fma | Tf32 | F16F32Acc | F16ChunkAcc

  function GemmNumeric(base: Shape, g: GemmChoice): Numeric {
    if !base.half then (if MmaOf(base, g) then Tf32 else F32Fma)
    else if MmaOf(base, g) && F16Accumulates(g.tile) then F16ChunkAcc
    else F16F32Acc
  }

  function AttentionNumeric(base: Shape, a: Attention): Numeric {
    if !base.half then F32Fma
    else if base.tensorCores && (a == Mma128 || a == Mma128Fa32) then F16ChunkAcc
    else F16F32Acc
  }

  /** A gated MLP's second GEMM, whose inputs reach F16's range, never sums
      in F16 where the operands are F16, whatever was asked. */
  lemma GatedSecondGemmSumsInF32(base: Shape, g: GemmChoice)
    requires base.half && !base.gated.NotGated?
    ensures GemmNumeric(base, CanonicalGemm(FFN2, base, g)) == F16F32Acc
    ensures base.tensorCores ==> !F16Accumulates(CanonicalGemm(FFN2, base, g).tile)
  {
  }

  /** The class of place k of bin b: GEMM k, or the attention after them. */
  function NumericAt(base: Shape, c: Choices, b: nat, k: nat): Numeric
    requires c.Valid() && b < c.bins && k <= GEMM_COUNT
  {
    if k < GEMM_COUNT then GemmNumeric(base, c.bin[b].gemm[k]) else AttentionNumeric(base, c.bin[b].attention)
  }

  /** n is a class of the first `bins` bins, and of the first `places` places
      of the bin after them. */
  ghost predicate ClassOf(base: Shape, c: Choices, bins: nat, places: nat, n: Numeric)
    requires c.Valid() && bins <= c.bins && places <= GEMM_COUNT + 1 && (bins == c.bins ==> places == 0)
  {
    || (exists b, k :: 0 <= b < bins && 0 <= k <= GEMM_COUNT && NumericAt(base, c, b, k) == n)
    || (exists k :: 0 <= k < places && NumericAt(base, c, bins, k) == n)
  }

  ghost function Numerics(base: Shape, c: Choices): set<Numeric>
    requires c.Valid()
  {
    set b, k | 0 <= b < c.bins && 0 <= k <= GEMM_COUNT :: NumericAt(base, c, b, k)
  }

  lemma NextPlace(base: Shape, c: Choices, bins: nat, places: nat, n: Numeric)
    requires c.Valid() && bins < c.bins && places <= GEMM_COUNT
    ensures ClassOf(base, c, bins, places + 1, n) <==>
      ClassOf(base, c, bins, places, n) || NumericAt(base, c, bins, places) == n
  {
  }

  lemma NextBin(base: Shape, c: Choices, bins: nat, n: Numeric)
    requires c.Valid() && bins < c.bins
    ensures ClassOf(base, c, bins, GEMM_COUNT + 1, n) <==> ClassOf(base, c, bins + 1, 0, n)
  {
  }

  /** The classes of c's GEMMs and attention, in the bins that exist: bits of
      one word in the source, a set here. */
  method NumericsOf(base: Shape, c: Choices) returns (n: set<Numeric>)
    requires c.Valid()
    ensures n == Numerics(base, c)
  {
    hide ClassOf;
    n := {};
    NoClassYet(base, c);
    for b := 0 to c.bins
      invariant forall x :: x in n <==> ClassOf(base, c, b, 0, x)
    {
      for g := 0 to GEMM_COUNT
        invariant forall x :: x in n <==> ClassOf(base, c, b, g, x)
      {
        forall x: Numeric
          ensures ClassOf(base, c, b, g + 1, x) <==> ClassOf(base, c, b, g, x) || NumericAt(base, c, b, g) == x
        {
          NextPlace(base, c, b, g, x);
        }
        n := n + {GemmNumeric(base, c.bin[b].gemm[g])};
      }
      forall x: Numeric
        ensures ClassOf(base, c, b + 1, 0, x) <==>
          ClassOf(base, c, b, GEMM_COUNT, x) || NumericAt(base, c, b, GEMM_COUNT) == x
      {
        NextPlace(base, c, b, GEMM_COUNT, x);
        NextBin(base, c, b, x);
      }
      n := n + {AttentionNumeric(base, c.bin[b].attention)};
    }
    forall x: Numeric
      ensures x in n <==> x in Numerics(base, c)
    {
      AllClasses(base, c, x);
    }
  }

  lemma NoClassYet(base: Shape, c: Choices)
    requires c.Valid()
    ensures forall x :: !ClassOf(base, c, 0, 0, x)
  {
  }

  lemma AllClasses(base: Shape, c: Choices, x: Numeric)
    requires c.Valid()
    ensures ClassOf(base, c, c.bins, 0, x) <==> x in Numerics(base, c)
  {
  }

  /** Where the first kernel outside the allowed classes stands, if any:
      found exactly when some class of c is not allowed. */
  method Outside(base: Shape, c: Choices, allowed: set<Numeric>)
    returns (found: bool, bin: nat, place: nat, class': Numeric)
    requires c.Valid()
    ensures found <==> !(Numerics(base, c) <= allowed)
    ensures found ==>
      bin < c.bins && place <= GEMM_COUNT && class' == NumericAt(base, c, bin, place) && class' !in allowed
    ensures found ==> forall b, k :: 0 <= b < c.bins && 0 <= k <= GEMM_COUNT && (b < bin || (b == bin && k < place)) ==>
      NumericAt(base, c, b, k) in allowed
  {
    for b := 0 to c.bins
      invariant forall i, k :: 0 <= i < b && 0 <= k <= GEMM_COUNT ==> NumericAt(base, c, i, k) in allowed
    {
      for g := 0 to GEMM_COUNT
        invariant forall k :: 0 <= k < g ==> NumericAt(base, c, b, k) in allowed
      {
        var n := GemmNumeric(base, c.bin[b].gemm[g]);
        if n !in allowed {
          assert NumericAt(base, c, b, g) == n;
          return true, b, g, n;
        }
      }
      var n := AttentionNumeric(base, c.bin[b].attention);
      assert NumericAt(base, c, b, GEMM_COUNT) == n;
      if n !in allowed {
        return true, b, GEMM_COUNT, n;
      }
    }
    found, bin, place, class' := false, 0, 0, F32Fma;
  }

  // ---- Bins of packed tokens ----

  const BIN_EDGE: seq<nat> := [256, 1024, 4096, 16384, 0x7fff_ffff]

  /** The bins that exist for tcap packed tokens at most. */
  method BinsFor(tcap: int) returns (n: nat)
    ensures 1 <= n <= BIN_COUNT
    ensures forall b :: 0 <= b < n - 1 ==> BIN_EDGE[b] < tcap
    ensures n < BIN_COUNT ==> tcap <= BIN_EDGE[n - 1]
  {
    n := 1;
    while n < BIN_COUNT && BIN_EDGE[n - 1] < tcap
      invariant 1 <= n <= BIN_COUNT
      invariant forall b :: 0 <= b < n - 1 ==> BIN_EDGE[b] < tcap
    {
      n := n + 1;
    }
  }

  /** A run's bin is the one whose edges hold its tokens, among those that
      exist for the session. */
  method BinOf(tokens: nat, bins: nat) returns (b: nat)
    requires 1 <= bins <= BIN_COUNT
    ensures b < bins
    ensures b > 0 ==> BIN_EDGE[b - 1] < tokens
    ensures b + 1 < bins ==> tokens <= BIN_EDGE[b]
  {
    b := 0;
    while b + 1 < bins && tokens > BIN_EDGE[b]
      invariant b < bins
      invariant b > 0 ==> BIN_EDGE[b - 1] < tokens
    {
      b := b + 1;
    }
  }

  method BinOfARun(tokens: nat, tcap: nat) returns (b: nat)
    requires tokens <= tcap <= 0x7fff_ffff
    ensures b < BIN_COUNT && tokens <= BIN_EDGE[b] && (b > 0 ==> BIN_EDGE[b - 1] < tokens)
  {
    var bins := BinsFor(tcap);
    b := BinOf(tokens, bins);
  }
}
