/** Which kernels there are and what they are called: the tiles each GEMM
    takes by shape and what replaces the others, the classes they compute in,
    the names, and a line spelt out. */
module CudaTables {
  import opened CudaChoices
  import opened ChoicesNames
  import opened ChoicesText
  import opened Decimals

  // ---- Tiles ----

  const OUT := 1

  /** On F16 tensor cores: a second GEMM of a gated MLP sums in F32. */
  predicate SumsInF32(which: nat, base: Shape) { which == FFN2 && base.gated != NotGated }

  /** The rows of a normalized output fit in one block. */
  predicate WholeRows(which: nat, base: Shape) { (which == OUT || which == FFN2) && base.hidden <= 384 }

  ghost predicate MultipleOfEight(base: Shape) { exists a, b :: base.hidden == 8 * a && base.inter == 8 * b }

  /** The tiles a GEMM takes: by itself, on the FMA kernel, in TF32, and on
      F16 tensor cores. */
  predicate TakesFma(base: Shape, t: Tile) {
    t in {T64x64, T128x64, T128x128, T128x128At16x8}
    || (t == Kt && !base.half) || (t == Cs && !base.half && base.tensorCores)
  }

  predicate TakesTf32(t: Tile) { t in {T64x64, T128x64, T128x128, T128x128At4W} }

  ghost predicate TakesF16(which: nat, base: Shape, t: Tile) {
    && (SumsInF32(which, base) ==>
          t !in {EightWarpsF16, Swizzled8WF16, F16WholeK, F16WholeK3, F16WholeKRows, F16WholeK256, CtK})
    && match t
       case Default | T128x128At16x8 => false
       case T256x128 => which != OUT && which != FFN2
       case Swizzled256x128 => which == FFN1
       case SwizzledRows => WholeRows(which, base)
       case F16WholeKRows => WholeRows(which, base)
       case F16WholeK256 => which != OUT && which != FFN2
       case Ct => MultipleOfEight(base)
       case CtK => MultipleOfEight(base)
       case _ => true
  }

  ghost predicate Takes(which: nat, base: Shape, mma: bool, t: Tile) {
    if !mma then TakesFma(base, t) else if !base.half then TakesTf32(t) else TakesF16(which, base, t)
  }

  lemma WholeLoadsAreEights(base: Shape)
    ensures WholeLoads(base) <==> MultipleOfEight(base)
  {
    if WholeLoads(base) {
      assert base.hidden == 8 * (base.hidden / 8) && base.inter == 8 * (base.inter / 8);
    }
  }

  /** What runs is always a tile the GEMM takes; one it takes runs as asked. */
  lemma WhatRunsIsTaken(which: nat, base: Shape, mma: bool, t: Tile)
    ensures Takes(which, base, mma, CanonicalTile(which, base, mma, t))
    ensures Takes(which, base, mma, t) <==> CanonicalTile(which, base, mma, t) == t
  {
    hide WholeLoads, MultipleOfEight;
    WholeLoadsAreEights(base);
  }

  /** On F16 tensor cores, off a gated MLP's second GEMM, F16 sums run exactly
      where they were asked for or nothing was. */
  lemma SumsAreWhatWasAsked(which: nat, base: Shape, t: Tile)
    requires base.half && !SumsInF32(which, base)
    ensures F16Accumulates(CanonicalTile(which, base, true, t)) <==> F16Accumulates(t) || t == Default
  {
  }

  /** What runs in place of a tile a GEMM does not take, on F16 tensor cores. */
  lemma F16Replacements(which: nat, base: Shape)
    requires base.half && !SumsInF32(which, base)
    ensures var run := (t: Tile) => CanonicalTile(which, base, true, t);
      && run(Default) == (if MultipleOfEight(base) then CtK else F16WholeK3)
      && run(T128x128At16x8) == T128x128
      && (which == OUT || which == FFN2 ==> run(T256x128) == T128x128At4W && run(F16WholeK256) == F16WholeK3)
      && (which != FFN1 ==> run(Swizzled256x128) == Swizzled)
      && (!WholeRows(which, base) ==> run(SwizzledRows) == Swizzled8W && run(F16WholeKRows) == F16WholeK3)
      && (!MultipleOfEight(base) ==> run(Ct) == EightWarps && run(CtK) == F16WholeK3)
  {
    hide WholeLoads, MultipleOfEight;
    WholeLoadsAreEights(base);
  }

  /** A gated MLP's second GEMM there: each F16 sum's schedule in F32. */
  lemma GatedReplacements(base: Shape)
    requires base.half && base.gated != NotGated
    ensures var run := (t: Tile) => CanonicalTile(FFN2, base, true, t);
      && run(Default) == run(CtK) == (if MultipleOfEight(base) then Ct else EightWarps)
      && run(EightWarpsF16) == EightWarps
      && run(Swizzled8WF16) == run(F16WholeK) == run(F16WholeK3) == Swizzled8W
      && run(F16WholeK256) == run(F16WholeKRows) == Swizzled8W
      && (!MultipleOfEight(base) ==> run(Ct) == EightWarps)
      && run(T256x128) == T128x128At4W && run(T128x128At16x8) == T128x128 && run(Swizzled256x128) == Swizzled
      && (!WholeRows(FFN2, base) ==> run(SwizzledRows) == Swizzled8W)
  {
    hide WholeLoads, MultipleOfEight;
    WholeLoadsAreEights(base);
  }

  /** On the FMA kernel any other runs as 128x64, and in TF32 too but for the
      two that have a near tile. */
  lemma OtherReplacements(which: nat, base: Shape, t: Tile)
    ensures !TakesFma(base, t) ==> CanonicalTile(which, base, false, t) == T128x64
    ensures !base.half && !TakesTf32(t) ==>
      CanonicalTile(which, base, true, t) ==
      if t == T256x128 then T128x128At4W else if t == T128x128At16x8 then T128x128 else T128x64
  {
  }

  /** The rest of a GEMM's choice: TF32 where F32 operands meet tensor cores,
      the stream-K as asked, and steps only where it streams. */
  lemma TheRestOfAGemm(which: nat, base: Shape, g: GemmChoice)
    ensures var r := CanonicalSteps(CanonicalGemm(which, base, g));
      && (r.tf32 <==> g.tf32 && base.tensorCores && !base.half)
      && r.tile == CanonicalTile(which, base, base.tensorCores && (base.half || g.tf32), g.tile)
      && r.sk == g.sk
      && r.steps == (if g.sk == Tiles then 0 else if g.steps <= 0 then 4 else g.steps)
  {
    hide CanonicalTile;
  }

  // ---- Attention and LayerNorm ----

  /** The attention kernels of a shape: F16 tensor cores at heads of 32 or 64,
      else the FMA kernels. */
  predicate TakesAttention(base: Shape, a: Attention)
    requires base.Valid()
  {
    var d := base.hidden / base.heads;
    if base.half && base.tensorCores && (d == 32 || d == 64) then
      a in {Mma64, Mma128, Mma128Exact, Mma128Acc32} || (a == Mma128Fa32 && d == 32)
    else a in {FmaTiled, FmaSplit, FmaTiled32}
  }

  lemma AttentionThatRuns(base: Shape, a: Attention)
    requires base.Valid()
    ensures var r := CanonicalAttention(base, a);
      && TakesAttention(base, r)
      && (TakesAttention(base, a) ==> r == a)
      && (!TakesAttention(base, a) ==>
            r == if TakesAttention(base, FmaTiled) then FmaTiled else if a == Mma128Fa32 then Mma128 else Mma64)
  {
  }

  /** A row of more than 512 is normalized on its own. */
  lemma LayerNormThatRuns(base: Shape, bc: BinChoices)
    requires base.Valid()
    ensures CanonicalBin(base, bc).ln == if base.hidden > 512 then Separate else bc.ln
    ensures CanonicalBin(base, bc).(gemm := bc.gemm, attention := bc.attention, ln := bc.ln) == bc
  {
  }

  // ---- Classes ----

  /** The numeric classes: F32 operands are TF32 only on tensor cores when
      asked, F16 operands sum in F16 only on tensor cores and in the tiles and
      attentions that do. */
  lemma Classes(base: Shape, g: GemmChoice, a: Attention)
    ensures GemmNumeric(base, g) == Tf32 <==> !base.half && base.tensorCores && g.tf32
    ensures GemmNumeric(base, g) == F32Fma <==> !base.half && !(base.tensorCores && g.tf32)
    ensures GemmNumeric(base, g) == F16ChunkAcc <==>
      base.half && base.tensorCores
      && g.tile in {EightWarpsF16, Swizzled8WF16, F16WholeK, F16WholeK3, F16WholeKRows, F16WholeK256, CtK}
    ensures AttentionNumeric(base, a) == F32Fma <==> !base.half
    ensures AttentionNumeric(base, a) == F16ChunkAcc <==> base.half && base.tensorCores && a in {Mma128, Mma128Fa32}
    ensures AttentionNumeric(base, a) != Tf32
  {
  }

  lemma BinEdges()
    ensures BIN_EDGE == [256, 1024, 4096, 16384, 2147483647] && |BIN_NAMES| == BIN_COUNT == 5
  {
  }

  // ---- Names ----

  function Spelling(t: Tile): string {
    match t
    case Default => "?"
    case T64x64 => "64x64"
    case T128x64 => "128x64"
    case T128x128 => "128x128"
    case T128x128At16x8 => "128x128-16x8"
    case T128x128At4W => "128x128-4w"
    case T256x128 => "256x128"
    case EightWarps => "8w"
    case Swizzled => "sw"
    case Swizzled8W => "sw8w"
    case Swizzled256x128 => "sw256"
    case SwizzledRows => "swrow"
    case EightWarpsF16 => "acc16-8w"
    case Swizzled8WF16 => "acc16-sw8w"
    case F16WholeK => "f16k"
    case F16WholeK3 => "f16k3"
    case F16WholeKRows => "f16krow"
    case F16WholeK256 => "f16k256"
    case Ct => "ct"
    case CtK => "ctk"
    case Cs => "cs"
    case Kt => "kt"
  }

  lemma SpellingsInOrder(i: nat)
    requires i < |TILES|
    ensures |TILE_NAMES| == |TILES| && TILE_NAMES[i] == Spelling(TILES[i])
  {
  }

  /** Each kernel's own word. */
  lemma TilesAreSpelt(t: Tile)
    ensures TileName(t) == Spelling(t)
  {
    hide NameIn, Spelling;
    TilesAreApart();
    if t == Default {
      NameOfNone(TILE_NAMES, TILES, t);
      assert Spelling(Default) == "?" by {
        DefaultHasNoName();
      }
    } else {
      NameAt(TILE_NAMES, TILES, t, TilePlace(t));
      SpellingsInOrder(TilePlace(t));
    }
  }

  lemma DefaultHasNoName()
    ensures Spelling(Default) == "?"
  {
  }

  lemma TheOthersAreSpelt(a: Attention, l: LayerNorm, p: Pool)
    ensures ATTN_NAMES[AttnIndex(a)] == match a
      case FmaTiled => "fma-tiled"
      case FmaSplit => "fma-split"
      case Mma64 => "mma64"
      case Mma128 => "mma128"
      case Mma128Exact => "mma128-exact"
      case Mma128Fa32 => "mma128-fa32"
      case Mma128Acc32 => "mma128-acc32"
      case FmaTiled32 => "fma-tiled32"
    ensures LN_NAMES[LnIndex(l)] == if l == Separate then "separate" else "fused"
    ensures POOL_NAMES[PoolIndex(p)] == if p == Groups then "groups" else "columns"
    ensures GEMM_NAMES == ["qkv", "out", "ffn1", "ffn2"]
    ensures BIN_NAMES == ["le256", "le1k", "le4k", "le16k", "gt16k"]
    ensures KNOB_NAMES == ["tile", "sk", "tf32", "attn", "ln", "pool"]
  {
  }

  // ---- Step counts ----

  ghost predicate Blank(s: string) { forall k :: 0 <= k < |s| ==> s[k] == ' ' || '\t' <= s[k] <= '\r' }

  ghost predicate AllDigits(s: string) { forall k :: 0 <= k < |s| ==> IsDigit(s[k]) }

  lemma {:induction false} SpacesEndAt(s: string, i: nat, n: nat)
    requires i <= n <= |s| && Blank(s[i..n]) && (n < |s| ==> !IsSpace(s[n]))
    ensures SpacesEnd(s, i) == n
    decreases n - i
  {
    if i < n {
      assert s[i] == s[i..n][0] && s[i + 1..n] == s[i..n][1..];
      SpacesEndAt(s, i + 1, n);
    }
  }

  lemma {:induction false} DigitsEndAt(s: string, i: nat, n: nat)
    requires i <= n <= |s| && AllDigits(s[i..n]) && (n < |s| ==> !IsDigit(s[n]))
    ensures DigitsEnd(s, i) == n
    decreases n - i
  {
    if i < n {
      assert s[i] == s[i..n][0] && s[i + 1..n] == s[i..n][1..];
      DigitsEndAt(s, i + 1, n);
    }
  }

  /** A number is blanks up to a, a sign or none up to b, and digits up to e;
      with no digit there, there is no number. */
  lemma ANumberIsRead(s: string, a: nat, b: nat, e: nat)
    requires a <= b <= e <= |s| && Blank(s[0..a]) && AllDigits(s[b..e]) && (e < |s| ==> !IsDigit(s[e]))
    requires if b == a then a < |s| ==> !Blank([s[a]]) && s[a] != '+' && s[a] != '-'
             else b == a + 1 && (s[a] == '+' || s[a] == '-')
    ensures Strtol(s) ==
      if e == b then (0, 0) else (if b > a && s[a] == '-' then -(Value(s[b..e]) as int) else Value(s[b..e]) as int, e)
  {
    hide SpacesEnd, DigitsEnd, Value;
    assert a < |s| ==> [s[a]][0] == s[a];
    SpacesEndAt(s, 0, a);
    DigitsEndAt(s, b, e);
  }

  // ---- Refusals ----

  /** Why a piece, a value or a part is refused, and the text that is named. */
  lemma WhyAPieceIsRefused(q: string, st: GemmState)
    requires st.err.None?
    ensures var err := ReadPiece(q, st).err;
      if q == "tf32" || q == "tiles" then err.None?
      else if !(|q| > 2 && q[0] == 's' && q[1] == 'k') then err == Some(Refusal(NoGemmPart, q))
      else if |q| >= 10 then err == Some(Refusal(NoStreamK, q))
      else
        var (n, at) := Strtol(q[2..]);
        if at == |q| - 2 && 1 <= n <= 64 then err.None? else err == Some(Refusal(BadSteps, q))
  {
    if |q| > 2 {
      assert q[..2] == [q[0], q[1]] && "sk" == ['s', 'k'];
    }
  }

  lemma WhyAValueIsRefused(key: string, v: string, bc: BinChoices)
    requires bc.Valid()
    ensures var err := ReadPart(key, v, bc).err;
      && (key in GEMM_NAMES && TileNamed(TILE_NAMES, TILES, Split(v, '/')[0]).None? ==>
            err == Some(Refusal(NoTile, Split(v, '/')[0])))
      && (key == "attn" ==> err == if v in ATTN_NAMES then None else Some(Refusal(NoAttention, v)))
      && (key == "ln" ==> err == if v in LN_NAMES then None else Some(Refusal(NoLayerNorm, v)))
      && (key !in GEMM_NAMES + ["attn", "ln"] ==> err == Some(Refusal(NoBinPart, key)))
  {
    assert "attn" !in GEMM_NAMES && "ln" !in GEMM_NAMES && "attn" != "ln";
  }

  lemma WhyAnItemIsRefused(item: string, st: State)
    requires st.Valid() && st.err.None? && item != "" && !StartsWith(item, "forced=")
    ensures var err := ReadItem(item, st).err;
      && (StartsWith(item, "pool=") ==>
            err == if item[5..] in POOL_NAMES then None else Some(Refusal(NoPooling, item[5..])))
      && (!StartsWith(item, "pool=") && ':' !in item ==> err == Some(Refusal(NoItem, item)))
      && (!StartsWith(item, "pool=") && ':' in item ==>
            var name := item[..Find(item, ':')];
            name != "all" && name !in BIN_NAMES ==> err == Some(Refusal(NoBin, name)))
  {
    hide StartsWith, ReadParts;
    var i := Find(item, ':');
    assert item[..|item|] == item;
  }

  // ---- A line ----

  function SomeBin(): (bc: BinChoices)
    ensures bc.Valid()
  {
    BinChoices([GemmChoice(CtK, Stream, 4, false), GemmChoice(Swizzled8W, Tiles, 0, false),
                GemmChoice(T128x64, Stream, 12, true), GemmChoice(Kt, Stream, 0, false)],
               [{KnobTile}, {}, {KnobTf32}, {}], Mma128, Fused, {KnobLn})
  }

  function SomeChoices(): (c: Choices)
    ensures c.Valid()
  {
    var b := SomeBin();
    Choices(1, [b, b, b, b, b], Columns, {})
  }

  lemma SomeItems()
    ensures GemmItem(SomeBin().gemm[0]) == "ctk" + "/sk4" + "" && GemmItem(SomeBin().gemm[1]) == "sw8w" + "/tiles" + ""
    ensures GemmItem(SomeBin().gemm[2]) == "128x64" + "/sk12" + "/tf32"
    ensures GemmItem(SomeBin().gemm[3]) == "kt" + "/sk4" + ""
  {
    hide TileName;
    TilesAreSpelt(CtK);
    TilesAreSpelt(Swizzled8W);
    TilesAreSpelt(T128x64);
    TilesAreSpelt(Kt);
    assert Decimal(4) == "4" && Decimal(12) == Decimal(1) + "2";
    assert "/sk" + Decimal(4) == "/sk4" && "/sk" + Decimal(12) == "/sk12";
  }

  lemma SomeParts()
    ensures PartsFrom(SomeBin(), 0) ==
      "qkv" + "=" + ("ctk" + "/sk4" + "") + "," +
      ("out" + "=" + ("sw8w" + "/tiles" + "") + "," +
       ("ffn1" + "=" + ("128x64" + "/sk12" + "/tf32") + "," +
        ("ffn2" + "=" + ("kt" + "/sk4" + "") + "," +
         ("attn=" + "mma128" + ",ln=" + "fused"))))
  {
    hide GemmItem;
    var b := SomeBin();
    SomeItems();
    PartsEnd(b);
    forall g: nat | g < 4
      ensures PartsFrom(b, g) == GEMM_NAMES[g] + "=" + GemmItem(b.gemm[g]) + "," + PartsFrom(b, g + 1)
    {
    }
    hide PartsFrom;
    assert PartsFrom(b, 3) == GEMM_NAMES[3] + "=" + GemmItem(b.gemm[3]) + "," + PartsFrom(b, 4);
    assert PartsFrom(b, 2) == GEMM_NAMES[2] + "=" + GemmItem(b.gemm[2]) + "," + PartsFrom(b, 3);
    assert PartsFrom(b, 1) == GEMM_NAMES[1] + "=" + GemmItem(b.gemm[1]) + "," + PartsFrom(b, 2);
    assert PartsFrom(b, 0) == GEMM_NAMES[0] + "=" + GemmItem(b.gemm[0]) + "," + PartsFrom(b, 1);
  }

  lemma PartsEnd(b: BinChoices)
    requires b == SomeBin()
    ensures PartsFrom(b, 4) == "attn=" + "mma128" + ",ln=" + "fused"
  {
  }

  lemma SomeKnobs()
    ensures KnobsFrom(ForcedKnobs(SomeChoices()), 0, true) == "" + "tile" + ("," + "tf32" + ("," + "ln" + ""))
  {
    var c := SomeChoices();
    var b := c.bin[0];
    assert GemmForcedTo(b, 1) == {KnobTile} && GemmForcedTo(b, 2) == {KnobTile};
    assert GemmForcedTo(b, 3) == {KnobTile, KnobTf32} && GemmForcedTo(b, 4) == {KnobTile, KnobTf32};
    assert ForcedTo(c, 0) == {};
    assert ForcedTo(c, 1) == {KnobTile, KnobTf32, KnobLn};
    assert ForcedKnobs(c) == {KnobTile, KnobTf32, KnobLn};
    TileTf32Ln({KnobTile, KnobTf32, KnobLn});
  }

  lemma TileTf32Ln(k: set<Knob>)
    requires k == {KnobTile, KnobTf32, KnobLn}
    ensures KnobsFrom(k, 0, true) == "" + "tile" + ("," + "tf32" + ("," + "ln" + ""))
  {
    assert KnobsFrom(k, 5, false) == "";
    assert KnobsFrom(k, 3, false) == KnobsFrom(k, 4, false) == "," + "ln" + "";
    assert KnobsFrom(k, 1, false) == KnobsFrom(k, 2, false) == "," + "tf32" + KnobsFrom(k, 3, false);
  }

  /** A line, spelt out: le256:qkv=ctk/sk4,out=sw8w/tiles,ffn1=128x64/sk12/tf32,
      ffn2=kt/sk4,attn=mma128,ln=fused;pool=columns;forced=tile,tf32,ln */
  lemma ALine()
    ensures Format(SomeChoices()) ==
      "le256" + ":" +
      ("qkv" + "=" + ("ctk" + "/sk4" + "") + "," +
       ("out" + "=" + ("sw8w" + "/tiles" + "") + "," +
        ("ffn1" + "=" + ("128x64" + "/sk12" + "/tf32") + "," +
         ("ffn2" + "=" + ("kt" + "/sk4" + "") + "," +
          ("attn=" + "mma128" + ",ln=" + "fused"))))) + ";" +
      ("pool=" + "columns" + ";forced=" + ("" + "tile" + ("," + "tf32" + ("," + "ln" + ""))))
  {
    hide PartsFrom, KnobsFrom, ForcedKnobs;
    SomeParts();
    SomeKnobs();
    OneBin(SomeChoices());
  }

  lemma OneBin(c: Choices)
    requires c.Valid() && c.bins == 1
    ensures Format(c) ==
      BIN_NAMES[0] + ":" + PartsFrom(c.bin[0], 0) + ";" +
      ("pool=" + POOL_NAMES[PoolIndex(c.pool)] + ";forced=" + KnobsFrom(ForcedKnobs(c), 0, true))
  {
    hide PartsFrom, KnobsFrom, ForcedKnobs;
    assert FormatFrom(c, 1) ==
      "pool=" + POOL_NAMES[PoolIndex(c.pool)] + ";forced=" + KnobsFrom(ForcedKnobs(c), 0, true);
  }
}
