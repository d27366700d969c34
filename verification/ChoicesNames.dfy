/** The names a choices line spells (core/cuda/autotune.h, autotune.cpp): each
    table's words are distinct and hold none of the line's separators. */
module ChoicesNames {
  import opened CudaChoices

  const TILE_NAMES: seq<string> := [
    "64x64", "128x64", "128x128", "128x128-16x8", "128x128-4w", "256x128", "8w", "sw", "sw8w", "sw256", "swrow",
    "acc16-8w", "acc16-sw8w", "f16k", "f16k3", "f16krow", "f16k256", "ct", "ctk", "cs", "kt"]
  const TILES: seq<Tile> := [
    T64x64, T128x64, T128x128, T128x128At16x8, T128x128At4W, T256x128, EightWarps, Swizzled, Swizzled8W,
    Swizzled256x128, SwizzledRows, EightWarpsF16, Swizzled8WF16, F16WholeK, F16WholeK3, F16WholeKRows, F16WholeK256,
    Ct, CtK, Cs, Kt]

  const GEMM_NAMES: seq<string> := ["qkv", "out", "ffn1", "ffn2"]
  const BIN_NAMES: seq<string> := ["le256", "le1k", "le4k", "le16k", "gt16k"]
  const ATTN_NAMES: seq<string> :=
    ["fma-tiled", "fma-split", "mma64", "mma128", "mma128-exact", "mma128-fa32", "mma128-acc32", "fma-tiled32"]
  const ATTENTIONS: seq<Attention> :=
    [FmaTiled, FmaSplit, Mma64, Mma128, Mma128Exact, Mma128Fa32, Mma128Acc32, FmaTiled32]
  const LN_NAMES: seq<string> := ["separate", "fused"]
  const LNS: seq<LayerNorm> := [Separate, Fused]
  const POOL_NAMES: seq<string> := ["groups", "columns"]
  const POOLS: seq<Pool> := [Groups, Columns]
  const KNOB_NAMES: seq<string> := ["tile", "sk", "tf32", "attn", "ln", "pool"]
  const KNOBS: seq<Knob> := [KnobTile, KnobSk, KnobTf32, KnobAttn, KnobLn, KnobPool]

  /** A word that holds none of the line's separators. */
  predicate Plain(s: string) { ';' !in s && ',' !in s && '/' !in s && ':' !in s && '=' !in s }

  ghost predicate AllPlain(names: seq<string>) {
    forall i :: 0 <= i < |names| ==> Plain(names[i])
  }

  lemma FirstTileNamesArePlain()
    ensures AllPlain(TILE_NAMES[..11])
  {
  }

  lemma LastTileNamesArePlain()
    ensures AllPlain(TILE_NAMES[11..])
  {
  }

  lemma BothPlain(a: seq<string>, b: seq<string>)
    requires AllPlain(a) && AllPlain(b)
    ensures AllPlain(a + b)
  {
    hide Plain;
  }

  lemma TileNamesArePlain()
    ensures AllPlain(TILE_NAMES)
  {
    hide AllPlain;
    FirstTileNamesArePlain();
    LastTileNamesArePlain();
    BothPlain(TILE_NAMES[..11], TILE_NAMES[11..]);
    assert TILE_NAMES[..11] + TILE_NAMES[11..] == TILE_NAMES;
  }

  lemma AttnNamesArePlain()
    ensures AllPlain(ATTN_NAMES)
  {
  }

  lemma GemmNamesArePlain()
    ensures AllPlain(GEMM_NAMES)
  {
  }

  lemma BinNamesArePlain()
    ensures AllPlain(BIN_NAMES)
  {
  }

  lemma LnAndPoolNamesArePlain()
    ensures AllPlain(LN_NAMES) && AllPlain(POOL_NAMES)
  {
  }

  ghost predicate Apart<T>(s: seq<T>) {
    forall i, j :: 0 <= i < j < |s| ==> s[i] != s[j]
  }

  lemma NamesAreApart()
    ensures Apart(TILE_NAMES) && |TILE_NAMES| == |TILES| && forall i :: 0 <= i < |TILE_NAMES| ==> TILE_NAMES[i] != "?"
  {
  }

  lemma TilesAreApart()
    ensures Apart(TILES) && Default !in TILES
  {
  }

  lemma OtherNamesAreApart()
    ensures Apart(GEMM_NAMES) && Apart(BIN_NAMES) && Apart(ATTN_NAMES) && Apart(LN_NAMES) && Apart(POOL_NAMES)
  {
  }
}
