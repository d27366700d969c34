/** A session's kernel choices as one line (core/cuda/autotune.cpp): the
    printer, the parser it is read back with, and the names both use.
    The parser's meaning is a fold over the pieces of the line; ChoicesParser
    walks the line by index as the source does and computes that meaning. */
module ChoicesText {
  import opened CudaChoices
  import opened ChoicesNames
  import opened Decimals

  datatype Option<T> = None | Some(value: T)

  // ---- Names ----

  /** The first name of t, "?" for the default tile, which has none. */
  function TileName(t: Tile): string { NameIn(TILE_NAMES, TILES, t) }

  function NameIn(names: seq<string>, tiles: seq<Tile>, t: Tile): string
    requires |names| == |tiles|
  {
    if names == [] then "?" else if tiles[0] == t then names[0] else NameIn(names[1..], tiles[1..], t)
  }

  /** The tile named w: the last of that name. */
  function TileNamed(names: seq<string>, tiles: seq<Tile>, w: string): Option<Tile>
    requires |names| == |tiles|
  {
    if names == [] then None
    else
      var n := |names| - 1;
      if names[n] == w then Some(tiles[n]) else TileNamed(names[..n], tiles[..n], w)
  }

  function AttnIndex(a: Attention): (i: nat)
    ensures i < |ATTENTIONS| && ATTENTIONS[i] == a
  {
    match a
    case FmaTiled => 0
    case FmaSplit => 1
    case Mma64 => 2
    case Mma128 => 3
    case Mma128Exact => 4
    case Mma128Fa32 => 5
    case Mma128Acc32 => 6
    case FmaTiled32 => 7
  }

  function LnIndex(l: LayerNorm): (i: nat)
    ensures i < |LNS| && LNS[i] == l
  {
    if l.Separate? then 0 else 1
  }

  function PoolIndex(p: Pool): (i: nat)
    ensures i < |POOLS| && POOLS[i] == p
  {
    if p.Groups? then 0 else 1
  }

  /** The index of w in names, or -1: the first of them. */
  function IndexOf(names: seq<string>, w: string): (i: int)
    ensures i == -1 || 0 <= i < |names|
    ensures i == -1 <==> w !in names
    ensures i >= 0 ==> names[i] == w && forall j :: 0 <= j < i ==> names[j] != w
  {
    if names == [] then -1
    else if names[0] == w then 0
    else
      var r := IndexOf(names[1..], w);
      if r < 0 then -1 else r + 1
  }

  lemma NamesAreFound(names: seq<string>, i: nat)
    requires i < |names| && forall j :: 0 <= j < i ==> names[j] != names[i]
    ensures IndexOf(names, names[i]) == i
  {
  }

  /** Every tile but the default has a name of its own, which names it back. */
  lemma TilesAreNamed(t: Tile)
    ensures Plain(TileName(t))
    ensures TileNamed(TILE_NAMES, TILES, TileName(t)) == if t == Default then None else Some(t)
  {
    NamesAreApart();
    TilesAreApart();
    TileNamesArePlain();
    var i := if t == Default then -1 else TilePlace(t);
    NamedBack(TILE_NAMES, TILES, t, i);
  }

  lemma NamedBack(names: seq<string>, tiles: seq<Tile>, t: Tile, i: int)
    requires |names| == |tiles| && Apart(names) && Apart(tiles) && "?" !in names
    requires if i == -1 then t !in tiles else 0 <= i < |tiles| && tiles[i] == t
    ensures var w := NameIn(names, tiles, t);
      if i == -1 then w == "?" && TileNamed(names, tiles, w) == None
      else w == names[i] && TileNamed(names, tiles, w) == Some(t)
  {
    if i == -1 {
      NameOfNone(names, tiles, t);
      NamesNothing(names, tiles, "?");
    } else {
      NameAt(names, tiles, t, i);
      NamedAt(names, tiles, names[i], i);
    }
  }

  function TilePlace(t: Tile): (i: nat)
    requires t != Default
    ensures i < |TILES| && TILES[i] == t
  {
    match t
    case T64x64 => 0
    case T128x64 => 1
    case T128x128 => 2
    case T128x128At16x8 => 3
    case T128x128At4W => 4
    case T256x128 => 5
    case EightWarps => 6
    case Swizzled => 7
    case Swizzled8W => 8
    case Swizzled256x128 => 9
    case SwizzledRows => 10
    case EightWarpsF16 => 11
    case Swizzled8WF16 => 12
    case F16WholeK => 13
    case F16WholeK3 => 14
    case F16WholeKRows => 15
    case F16WholeK256 => 16
    case Ct => 17
    case CtK => 18
    case Cs => 19
    case Kt => 20
  }

  lemma {:induction false} NameAt(names: seq<string>, tiles: seq<Tile>, t: Tile, i: nat)
    requires |names| == |tiles| && i < |names| && tiles[i] == t && forall j :: 0 <= j < i ==> tiles[j] != t
    ensures NameIn(names, tiles, t) == names[i]
  {
    if i > 0 {
      NameAt(names[1..], tiles[1..], t, i - 1);
    }
  }

  lemma {:induction false} NameOfNone(names: seq<string>, tiles: seq<Tile>, t: Tile)
    requires |names| == |tiles| && t !in tiles
    ensures NameIn(names, tiles, t) == "?"
  {
    if names != [] {
      NameOfNone(names[1..], tiles[1..], t);
    }
  }

  lemma {:induction false} NamedAt(names: seq<string>, tiles: seq<Tile>, w: string, i: nat)
    requires |names| == |tiles| && i < |names| && names[i] == w && forall j :: i < j < |names| ==> names[j] != w
    ensures TileNamed(names, tiles, w) == Some(tiles[i])
  {
    var n := |names| - 1;
    if i < n {
      NamedAt(names[..n], tiles[..n], w, i);
    }
  }

  lemma {:induction false} NamesNothing(names: seq<string>, tiles: seq<Tile>, w: string)
    requires |names| == |tiles| && w !in names
    ensures TileNamed(names, tiles, w) == None
  {
    if names != [] {
      NamesNothing(names[..|names| - 1], tiles[..|names| - 1], w);
    }
  }

  // ---- The printer ----

  /** The stream-K steps a choice prints: its own, or the kernels' own. */
  function PrintedSteps(g: GemmChoice): (n: nat)
    ensures n > 0
  {
    if g.steps > 0 then g.steps else SK_MIN_STEPS
  }

  /** A GEMM's item after its "=". */
  function GemmItem(g: GemmChoice): string {
    TileName(g.tile) + (if g.sk.Tiles? then "/tiles" else "/sk" + Decimal(PrintedSteps(g))) +
    (if g.tf32 then "/tf32" else "")
  }

  /** A bin's parts from GEMM g on. */
  function PartsFrom(bc: BinChoices, g: nat): string
    requires bc.Valid() && g <= GEMM_COUNT
    decreases GEMM_COUNT - g
  {
    if g == GEMM_COUNT then "attn=" + ATTN_NAMES[AttnIndex(bc.attention)] + ",ln=" + LN_NAMES[LnIndex(bc.ln)]
    else GEMM_NAMES[g] + "=" + GemmItem(bc.gemm[g]) + "," + PartsFrom(bc, g + 1)
  }

  /** The knobs of k, of the names from i on, joined by commas. */
  function KnobsFrom(k: set<Knob>, i: nat, first: bool): string
    requires i <= |KNOBS|
    decreases |KNOBS| - i
  {
    if i == |KNOBS| then ""
    else if KNOBS[i] in k then (if first then "" else ",") + KNOB_NAMES[i] + KnobsFrom(k, i + 1, false)
    else KnobsFrom(k, i + 1, first)
  }

  /** The line from bin b on. */
  function FormatFrom(c: Choices, b: nat): string
    requires c.Valid() && b <= c.bins
    decreases c.bins - b
  {
    if b == c.bins then "pool=" + POOL_NAMES[PoolIndex(c.pool)] + ";forced=" + KnobsFrom(ForcedKnobs(c), 0, true)
    else BIN_NAMES[b] + ":" + PartsFrom(c.bin[b], 0) + ";" + FormatFrom(c, b + 1)
  }

  /** c as one line. */
  function Format(c: Choices): string
    requires c.Valid()
  {
    FormatFrom(c, 0)
  }

  /** The knobs forced anywhere in the bins that exist. */
  function ForcedKnobs(c: Choices): set<Knob>
    requires c.Valid()
  {
    c.poolForced + ForcedTo(c, c.bins)
  }

  function ForcedTo(c: Choices, b: nat): set<Knob>
    requires c.Valid() && b <= c.bins
  {
    if b == 0 then {} else ForcedTo(c, b - 1) + c.bin[b - 1].forced + GemmForcedTo(c.bin[b - 1], GEMM_COUNT)
  }

  function GemmForcedTo(bc: BinChoices, g: nat): set<Knob>
    requires bc.Valid() && g <= GEMM_COUNT
  {
    if g == 0 then {} else GemmForcedTo(bc, g - 1) + bc.gemmForced[g - 1]
  }

  // ---- What a line means ----

  datatype What =
    | NoPooling | NoItem | NoBin | NoPart | NoAttention | NoLayerNorm | NoTile | NoStreamK | BadSteps | NoGemmPart
    | NoBinPart

  /** Why a line is refused, and the text it names. */
  datatype Refusal = Refusal(what: What, text: string)

  /** The first place of ch in s, or its end. */
  function Find(s: string, ch: char): (i: nat)
    ensures i <= |s| && forall k :: 0 <= k < i ==> s[k] != ch
    ensures i < |s| ==> s[i] == ch
  {
    if s == "" || s[0] == ch then 0 else 1 + Find(s[1..], ch)
  }

  /** The pieces of s between each ch: one more than there are of them. */
  function Split(s: string, ch: char): (ps: seq<string>)
    ensures |ps| > 0
  {
    var i := Find(s, ch);
    if i == |s| then [s] else [s[..i]] + Split(s[i + 1..], ch)
  }

  /** The pieces of s each ended by ch, the last by the end of s. */
  function Ended(s: string, ch: char): seq<string> {
    if s == "" then []
    else
      var i := Find(s, ch);
      if i == |s| then [s] else [s[..i]] + Ended(s[i + 1..], ch)
  }

  // strtol in base 10, over the digits of a step count.

  predicate IsSpace(c: char) { c == ' ' || '\t' <= c <= '\r' }

  function SpacesEnd(s: string, i: nat): (j: nat)
    requires i <= |s|
    ensures i <= j <= |s|
    decreases |s| - i
  {
    if i < |s| && IsSpace(s[i]) then SpacesEnd(s, i + 1) else i
  }

  function DigitsEnd(s: string, i: nat): (j: nat)
    requires i <= |s|
    ensures i <= j <= |s| && forall k :: i <= k < j ==> IsDigit(s[k])
    decreases |s| - i
  {
    if i < |s| && IsDigit(s[i]) then DigitsEnd(s, i + 1) else i
  }

  /** The number s starts with and where it ends: the start of s when it
      starts with none. */
  function Strtol(s: string): (r: (int, nat))
    ensures r.1 <= |s|
  {
    var a := SpacesEnd(s, 0);
    var b := if a < |s| && (s[a] == '+' || s[a] == '-') then a + 1 else a;
    var e := DigitsEnd(s, b);
    if e == b then (0, 0) else (if b > a && s[a] == '-' then -(Value(s[b..e]) as int) else Value(s[b..e]) as int, e)
  }

  datatype GemmState = GemmState(g: GemmChoice, forced: set<Knob>, err: Option<Refusal>)

  /** One piece after a GEMM's tile. */
  function ReadPiece(q: string, st: GemmState): GemmState {
    if q == "tf32" then st.(g := st.g.(tf32 := true))
    else if q == "tiles" then st.(g := st.g.(sk := Tiles, steps := 0), forced := st.forced + {KnobSk})
    else if |q| > 2 && q[..2] == "sk" then
      if |q| - 2 >= 8 then st.(err := Some(Refusal(NoStreamK, q)))
      else
        var (steps, e) := Strtol(q[2..]);
        if e != |q| - 2 || steps < 1 || steps > 64 then st.(err := Some(Refusal(BadSteps, q)))
        else st.(g := st.g.(sk := Stream, steps := steps), forced := st.forced + {KnobSk})
    else st.(err := Some(Refusal(NoGemmPart, q)))
  }

  function ReadPieces(pieces: seq<string>, st: GemmState): GemmState {
    if pieces == [] || st.err.Some? then st else ReadPieces(pieces[1..], ReadPiece(pieces[0], st))
  }

  /** One GEMM's value, onto the choice it had. */
  function ReadGemm(v: string, g: GemmChoice, forced: set<Knob>): GemmState {
    var pieces := Split(v, '/');
    match TileNamed(TILE_NAMES, TILES, pieces[0])
    case None => GemmState(g, forced, Some(Refusal(NoTile, pieces[0])))
    case Some(t) =>
      ReadPieces(pieces[1..], GemmState(g.(tile := t, tf32 := false), forced + {KnobTile, KnobTf32}, None))
  }

  datatype BinState = BinState(bc: BinChoices, err: Option<Refusal>)

  /** One part of a bin, "<key>=<value>", onto what the bin had. */
  function ReadPart(key: string, v: string, bc: BinChoices): (r: BinState)
    requires bc.Valid()
    ensures r.bc.Valid()
  {
    var g := IndexOf(GEMM_NAMES, key);
    if g >= 0 then
      var r := ReadGemm(v, bc.gemm[g], bc.gemmForced[g]);
      BinState(bc.(gemm := bc.gemm[g := r.g], gemmForced := bc.gemmForced[g := r.forced]), r.err)
    else if key == "attn" then
      var a := IndexOf(ATTN_NAMES, v);
      if a < 0 then BinState(bc, Some(Refusal(NoAttention, v)))
      else BinState(bc.(attention := ATTENTIONS[a], forced := bc.forced + {KnobAttn}), None)
    else if key == "ln" then
      var l := IndexOf(LN_NAMES, v);
      if l < 0 then BinState(bc, Some(Refusal(NoLayerNorm, v)))
      else BinState(bc.(ln := LNS[l], forced := bc.forced + {KnobLn}), None)
    else BinState(bc, Some(Refusal(NoBinPart, key)))
  }

  datatype State = State(into: Choices, absent: set<nat>, err: Option<Refusal>) {
    ghost predicate Valid() { into.Valid() }
  }

  /** A part into bins lo to hi. */
  function ReadIntoBins(key: string, v: string, lo: nat, hi: nat, st: State): (r: State)
    requires st.Valid() && hi <= st.into.bins
    ensures r.Valid() && r.into.bins == st.into.bins
    decreases hi - lo
  {
    if lo >= hi || st.err.Some? then st
    else
      var p := ReadPart(key, v, st.into.bin[lo]);
      ReadIntoBins(key, v, lo + 1, hi, st.(into := st.into.(bin := st.into.bin[lo := p.bc]), err := p.err))
  }

  /** A part of the bin named, every bin when bin is None. */
  function ReadPartOf(part: string, bin: Option<nat>, st: State): (r: State)
    requires st.Valid()
    ensures r.Valid() && r.into.bins == st.into.bins
  {
    var eq := Find(part, '=');
    if eq == |part| then st.(err := Some(Refusal(NoPart, part)))
    else
      var key, v := part[..eq], part[eq + 1..];
      match bin
      case None => ReadIntoBins(key, v, 0, st.into.bins, st)
      case Some(b) =>
        if b >= st.into.bins then st.(absent := st.absent + {b}) else ReadIntoBins(key, v, b, b + 1, st)
  }

  function ReadParts(parts: seq<string>, bin: Option<nat>, st: State): (r: State)
    requires st.Valid()
    ensures r.Valid() && r.into.bins == st.into.bins
  {
    if parts == [] || st.err.Some? then st else ReadParts(parts[1..], bin, ReadPartOf(parts[0], bin, st))
  }

  predicate StartsWith(s: string, p: string) { |s| >= |p| && s[..|p|] == p }

  /** One item of the line. */
  function ReadItem(item: string, st: State): (r: State)
    requires st.Valid()
    ensures r.Valid() && r.into.bins == st.into.bins
  {
    if item == "" || StartsWith(item, "forced=") then st
    else if StartsWith(item, "pool=") then
      var v := IndexOf(POOL_NAMES, item[5..]);
      if v < 0 then st.(err := Some(Refusal(NoPooling, item[5..])))
      else st.(into := st.into.(pool := POOLS[v], poolForced := {KnobPool}))
    else
      var colon := Find(item, ':');
      if colon == |item| then st.(err := Some(Refusal(NoItem, item)))
      else
        var name, parts := item[..colon], Ended(item[colon + 1..], ',');
        if name == "all" then ReadParts(parts, None, st)
        else
          var b := IndexOf(BIN_NAMES, name);
          if b < 0 then st.(err := Some(Refusal(NoBin, name))) else ReadParts(parts, Some(b), st)
  }

  function ReadItems(items: seq<string>, st: State): (r: State)
    requires st.Valid()
    ensures r.Valid() && r.into.bins == st.into.bins
  {
    if items == [] || st.err.Some? then st else ReadItems(items[1..], ReadItem(items[0], st))
  }

  /** The whole line, onto the session's choices. */
  function Read(s: string, into: Choices): (r: State)
    requires into.Valid()
    ensures r.Valid() && r.into.bins == into.bins
  {
    ReadItems(Ended(s, ';'), State(into, {}, None))
  }

  lemma FirstPart(p: string, rest: seq<string>, bin: Option<nat>, st: State)
    requires st.Valid() && st.err.None?
    ensures ReadParts([p] + rest, bin, st) == ReadParts(rest, bin, ReadPartOf(p, bin, st))
  {
    assert ([p] + rest)[1..] == rest;
  }

  lemma FirstItem(item: string, rest: seq<string>, st: State)
    requires st.Valid() && st.err.None?
    ensures ReadItems([item] + rest, st) == ReadItems(rest, ReadItem(item, st))
  {
    assert ([item] + rest)[1..] == rest;
  }

  /** Cutting the next piece off what is left of a line. */
  lemma EndedStep(s: string, ch: char, p: nat, q: nat)
    requires p < |s| && q == p + Find(s[p..], ch)
    ensures q <= |s| && (q < |s| ==> s[q] == ch)
    ensures Ended(s[p..], ch) == [s[p..q]] + Ended(s[(if q < |s| then q + 1 else q)..], ch)
  {
    hide Ended, Find;
    var t := s[p..];
    EndedUnfolds(t, ch);
    assert q < |s| ==> t[..q - p] == s[p..q] && t[q - p + 1..] == s[q + 1..];
    assert q == |s| ==> t == s[p..q] && s[q..] == "";
  }

  lemma EndedUnfolds(t: string, ch: char)
    requires t != ""
    ensures var i := Find(t, ch);
      Ended(t, ch) == if i == |t| then [t] + Ended("", ch) else [t[..i]] + Ended(t[i + 1..], ch)
  {
    hide Find;
  }

  lemma SplitStep(s: string, ch: char, p: nat, q: nat)
    requires p <= |s| && q == p + Find(s[p..], ch)
    ensures q <= |s| && (q < |s| ==> s[q] == ch)
    ensures Split(s[p..], ch) == [s[p..q]] + (if q < |s| then Split(s[q + 1..], ch) else [])
  {
    hide Split, Find;
    var t := s[p..];
    SplitUnfolds(t, ch);
    assert q < |s| ==> t[..q - p] == s[p..q] && t[q - p + 1..] == s[q + 1..];
    assert q == |s| ==> t == s[p..q];
  }

  lemma SplitUnfolds(t: string, ch: char)
    ensures var i := Find(t, ch);
      Split(t, ch) == if i == |t| then [t] else [t[..i]] + Split(t[i + 1..], ch)
  {
    hide Find;
  }

  lemma FirstPiece(q: string, rest: seq<string>, st: GemmState)
    requires st.err.None?
    ensures ReadPieces([q] + rest, st) == ReadPieces(rest, ReadPiece(q, st))
  {
    assert ([q] + rest)[1..] == rest;
  }
}
