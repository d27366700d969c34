/** core/cuda/autotune.cpp's format_choices and parse_choices as they walk the
    line by index: they compute what ChoicesText says the line is and means. */
module ChoicesParser {
  import opened CudaChoices
  import opened ChoicesNames
  import opened ChoicesText
  import opened Decimals

  /** The first n characters that fit in out with a NUL; the length needed. */
  method FormatChoices(c: Choices, out: array<char>) returns (need: nat)
    requires c.Valid()
    modifies out
    ensures need == |Format(c)|
    ensures out.Length > 0 ==>
      var n := if need < out.Length - 1 then need else out.Length - 1;
      out[..n] == Format(c)[..n] && out[n] == 0 as char
  {
    hide FormatFrom, PartsFrom, KnobsFrom, ForcedKnobs;
    var s := "";
    for b := 0 to c.bins
      invariant s + FormatFrom(c, b) == Format(c)
    {
      var parts := BinParts(c.bin[b]);
      var item := BIN_NAMES[b] + ":" + parts + ";";
      FormatStep(c, b);
      Glue(s, item, FormatFrom(c, b + 1));
      s := s + item;
    }
    var knobs := KnobList(c);
    FormatEnd(c);
    s := s + ("pool=" + POOL_NAMES[PoolIndex(c.pool)] + ";forced=" + knobs);
    need := |s|;
    CopyOut(s, out);
  }

  method BinParts(bc: BinChoices) returns (s: string)
    requires bc.Valid()
    ensures s == PartsFrom(bc, 0)
  {
    hide GemmItem, PartsFrom;
    s := "";
    for g := 0 to GEMM_COUNT
      invariant s + PartsFrom(bc, g) == PartsFrom(bc, 0)
    {
      var item := GemmItem(bc.gemm[g]);
      var part := GEMM_NAMES[g] + "=" + item + ",";
      PartsStep(bc, g);
      Glue(s, part, PartsFrom(bc, g + 1));
      s := s + part;
    }
    PartsEnd(bc);
    s := s + ("attn=" + ATTN_NAMES[AttnIndex(bc.attention)] + ",ln=" + LN_NAMES[LnIndex(bc.ln)]);
  }

  lemma Glue(s: string, a: string, rest: string)
    ensures s + (a + rest) == (s + a) + rest
  {
  }

  lemma PartsStep(bc: BinChoices, g: nat)
    requires bc.Valid() && g < GEMM_COUNT
    ensures PartsFrom(bc, g) == (GEMM_NAMES[g] + "=" + GemmItem(bc.gemm[g]) + ",") + PartsFrom(bc, g + 1)
  {
  }

  lemma PartsEnd(bc: BinChoices)
    requires bc.Valid()
    ensures PartsFrom(bc, GEMM_COUNT) ==
      "attn=" + ATTN_NAMES[AttnIndex(bc.attention)] + ",ln=" + LN_NAMES[LnIndex(bc.ln)]
  {
  }

  lemma FormatStep(c: Choices, b: nat)
    requires c.Valid() && b < c.bins
    ensures FormatFrom(c, b) == (BIN_NAMES[b] + ":" + PartsFrom(c.bin[b], 0) + ";") + FormatFrom(c, b + 1)
  {
  }

  lemma FormatEnd(c: Choices)
    requires c.Valid()
    ensures FormatFrom(c, c.bins) ==
      "pool=" + POOL_NAMES[PoolIndex(c.pool)] + ";forced=" + KnobsFrom(ForcedKnobs(c), 0, true)
  {
  }

  method KnobList(c: Choices) returns (s: string)
    requires c.Valid()
    ensures s == KnobsFrom(ForcedKnobs(c), 0, true)
  {
    hide ForcedKnobs, KnobsFrom;
    var k := Forced(c);
    var first := true;
    s := "";
    assert s + KnobsFrom(k, 0, true) == KnobsFrom(k, 0, true);
    for i := 0 to |KNOBS|
      invariant s + KnobsFrom(k, i, first) == KnobsFrom(k, 0, true)
    {
      KnobsStep(k, i, first);
      if KNOBS[i] in k {
        ghost var rest := KnobsFrom(k, i + 1, false);
        var comma := if first then "" else ",";
        Glue(s, comma + KNOB_NAMES[i], rest);
        s := s + (comma + KNOB_NAMES[i]);
        first := false;
      }
    }
    KnobsEnd(k, first);
    assert s + "" == s;
  }

  lemma KnobsStep(k: set<Knob>, i: nat, first: bool)
    requires i < |KNOBS|
    ensures KnobsFrom(k, i, first) ==
      if KNOBS[i] in k then ((if first then "" else ",") + KNOB_NAMES[i]) + KnobsFrom(k, i + 1, false)
      else KnobsFrom(k, i + 1, first)
  {
  }

  lemma KnobsEnd(k: set<Knob>, first: bool)
    ensures KnobsFrom(k, |KNOBS|, first) == ""
  {
  }

  method CopyOut(s: string, out: array<char>)
    modifies out
    ensures out.Length > 0 ==>
      var n := if |s| < out.Length - 1 then |s| else out.Length - 1;
      out[..n] == s[..n] && out[n] == 0 as char
  {
    if out.Length > 0 {
      var n := if |s| < out.Length - 1 then |s| else out.Length - 1;
      for i := 0 to n
        invariant out[..i] == s[..i]
      {
        out[i] := s[i];
      }
      out[n] := 0 as char;
    }
  }

  /** forced_knobs. */
  method Forced(c: Choices) returns (k: set<Knob>)
    requires c.Valid()
    ensures k == ForcedKnobs(c)
  {
    k := c.poolForced;
    for b := 0 to c.bins
      invariant k == c.poolForced + ForcedTo(c, b)
    {
      k := k + c.bin[b].forced;
      for g := 0 to GEMM_COUNT
        invariant k == c.poolForced + ForcedTo(c, b) + c.bin[b].forced + GemmForcedTo(c.bin[b], g)
      {
        k := k + c.bin[b].gemmForced[g];
      }
    }
  }

  /** Walks from p to ch or the end. */
  method Scan(s: string, ch: char, p: nat) returns (q: nat)
    requires p <= |s|
    ensures q == p + Find(s[p..], ch)
  {
    q := p;
    while q < |s| && s[q] != ch
      invariant p <= q <= |s|
      invariant p + Find(s[p..], ch) == q + Find(s[q..], ch)
    {
      assert s[q..] == [s[q]] + s[q + 1..];
      q := q + 1;
    }
  }

  method FindTile(names: seq<string>, tiles: seq<Tile>, w: string) returns (tile: Option<Tile>)
    requires |names| == |tiles|
    ensures tile == TileNamed(names, tiles, w)
  {
    tile := None;
    for i := 0 to |names|
      invariant tile == TileNamed(names[..i], tiles[..i], w)
    {
      assert names[..i + 1][..i] == names[..i] && tiles[..i + 1][..i] == tiles[..i];
      if names[i] == w {
        tile := Some(tiles[i]);
      }
    }
    assert names[..|names|] == names && tiles[..|tiles|] == tiles;
  }

  /** parse_gemm: the tile, then each piece after a "/". */
  method ParseGemm(w: string, g: GemmChoice, forced: set<Knob>) returns (r: GemmState)
    ensures r == ReadGemm(w, g, forced)
  {
    hide ReadPieces, ReadPiece, Split, TileNamed;
    var p := Scan(w, '/', 0);
    assert w[0..] == w && w[0..p] == w[..p];
    SplitStep(w, '/', 0, p);
    var tile := FindTile(TILE_NAMES, TILES, w[..p]);
    if tile.None? {
      return GemmState(g, forced, Some(Refusal(NoTile, w[..p])));
    }
    r := GemmState(g.(tile := tile.value, tf32 := false), forced + {KnobTile, KnobTf32}, None);
    r := ParsePieces(w, p, r);
  }

  method ParsePieces(w: string, from: nat, given: GemmState) returns (r: GemmState)
    requires from <= |w| && (from < |w| ==> w[from] == '/') && given.err.None?
    ensures r == ReadPieces(if from < |w| then Split(w[from + 1..], '/') else [], given)
  {
    hide ReadPieces, ReadPiece, Split;
    var p := from;
    r := given;
    ghost var rest := if p < |w| then Split(w[p + 1..], '/') else [];
    ghost var whole := ReadPieces(rest, r);
    while p < |w|
      invariant p <= |w| && (p < |w| ==> w[p] == '/')
      invariant rest == if p < |w| then Split(w[p + 1..], '/') else []
      invariant r.err.None? && ReadPieces(rest, r) == whole
      decreases |w| - p
    {
      var q := p + 1;
      p := Scan(w, '/', q);
      SplitStep(w, '/', q, p);
      rest := if p < |w| then Split(w[p + 1..], '/') else [];
      FirstPiece(w[q..p], rest, r);
      r := ReadPiece(w[q..p], r);
      if r.err.Some? {
        StopsAtError(rest, r);
        return;
      }
    }
    NoMorePieces(r);
  }

  lemma StopsAtError(rest: seq<string>, r: GemmState)
    requires r.err.Some?
    ensures ReadPieces(rest, r) == r
  {
  }

  lemma NoMorePieces(r: GemmState)
    ensures ReadPieces([], r) == r
  {
  }

  /** One part's value, into bin b. */
  method ParsePart(key: string, v: string, bc: BinChoices) returns (r: BinState)
    requires bc.Valid()
    ensures r == ReadPart(key, v, bc)
  {
    var g := IndexOf(GEMM_NAMES, key);
    if g >= 0 {
      var p := ParseGemm(v, bc.gemm[g], bc.gemmForced[g]);
      r := BinState(bc.(gemm := bc.gemm[g := p.g], gemmForced := bc.gemmForced[g := p.forced]), p.err);
    } else if key == "attn" {
      var a := IndexOf(ATTN_NAMES, v);
      if a < 0 {
        return BinState(bc, Some(Refusal(NoAttention, v)));
      }
      r := BinState(bc.(attention := ATTENTIONS[a], forced := bc.forced + {KnobAttn}), None);
    } else if key == "ln" {
      var l := IndexOf(LN_NAMES, v);
      if l < 0 {
        return BinState(bc, Some(Refusal(NoLayerNorm, v)));
      }
      r := BinState(bc.(ln := LNS[l], forced := bc.forced + {KnobLn}), None);
    } else {
      r := BinState(bc, Some(Refusal(NoBinPart, key)));
    }
  }

  /** One part, into every bin it names. */
  method ParsePartOf(text: string, bin: Option<nat>, given: State) returns (st: State)
    requires given.Valid() && given.err.None? && (bin.Some? ==> bin.value < BIN_COUNT)
    ensures st == ReadPartOf(text, bin, given)
  {
    hide ReadPart, Find;
    st := given;
    var eq := Find(text, '=');
    if eq == |text| {
      return st.(err := Some(Refusal(NoPart, text)));
    }
    var key, v := text[..eq], text[eq + 1..];
    if bin.Some? && bin.value >= st.into.bins {
      st := st.(absent := st.absent + {bin.value});
    }
    var b: nat := if bin.Some? then bin.value else 0;
    var hi := if bin.Some? then b + 1 else st.into.bins;
    ghost var start := st;
    while b < hi && b < st.into.bins
      invariant st.Valid() && st.into.bins == given.into.bins && st.err.None?
      invariant hi <= st.into.bins || st == start
      invariant hi <= st.into.bins ==> b <= hi && ReadIntoBins(key, v, b, hi, st) == ReadPartOf(text, bin, given)
      invariant hi > st.into.bins ==> b >= st.into.bins && start == ReadPartOf(text, bin, given)
      decreases hi - b
    {
      var r := ParsePart(key, v, st.into.bin[b]);
      st := st.(into := st.into.(bin := st.into.bin[b := r.bc]), err := r.err);
      if r.err.Some? {
        return;
      }
      b := b + 1;
    }
  }

  /** Each of a bin's parts, into every bin it names. */
  method ParseParts(body: string, bin: Option<nat>, given: State) returns (st: State)
    requires given.Valid() && given.err.None? && (bin.Some? ==> bin.value < BIN_COUNT)
    ensures st == ReadParts(Ended(body, ','), bin, given)
  {
    hide ReadPartOf, ReadParts, Ended;
    st := given;
    var q := 0;
    assert body[0..] == body;
    while q < |body|
      invariant q <= |body| && st.Valid() && st.into.bins == given.into.bins && st.err.None?
      invariant ReadParts(Ended(body[q..], ','), bin, st) == ReadParts(Ended(body, ','), bin, given)
      decreases |body| - q
    {
      var part := q;
      q := Scan(body, ',', q);
      EndedStep(body, ',', part, q);
      var text := body[part..q];
      if q < |body| {
        q := q + 1;
      }
      FirstPart(text, Ended(body[q..], ','), bin, st);
      st := ParsePartOf(text, bin, st);
      if st.err.Some? {
        PartsStop(Ended(body[q..], ','), bin, st);
        return;
      }
    }
    NothingLeft(bin, st);
    assert body[q..] == "";
  }

  lemma PartsStop(parts: seq<string>, bin: Option<nat>, st: State)
    requires st.Valid() && st.err.Some?
    ensures ReadParts(parts, bin, st) == st
  {
  }

  lemma ItemsStop(items: seq<string>, st: State)
    requires st.Valid() && st.err.Some?
    ensures ReadItems(items, st) == st
  {
  }

  lemma NothingLeft(bin: Option<nat>, st: State)
    requires st.Valid()
    ensures Ended("", ',') == [] && Ended("", ';') == []
    ensures ReadParts([], bin, st) == st && ReadItems([], st) == st
  {
  }

  /** parse_choices: each item in turn, into the session's choices. */
  method ParseChoices(s: string, into: Choices) returns (st: State)
    requires into.Valid()
    ensures st == Read(s, into)
  {
    hide ReadItems, ReadItem, Ended;
    st := State(into, {}, None);
    var p := 0;
    assert s[0..] == s;
    while p < |s|
      invariant p <= |s| && st.Valid() && st.into.bins == into.bins && st.err.None?
      invariant ReadItems(Ended(s[p..], ';'), st) == Read(s, into)
      decreases |s| - p
    {
      var start := p;
      p := Scan(s, ';', p);
      EndedStep(s, ';', start, p);
      var item := s[start..p];
      if p < |s| {
        p := p + 1;
      }
      FirstItem(item, Ended(s[p..], ';'), st);
      st := ParseItem(item, st);
      if st.err.Some? {
        ItemsStop(Ended(s[p..], ';'), st);
        return;
      }
    }
    NothingLeft(None, st);
    assert s[p..] == "";
  }

  method ParseItem(item: string, given: State) returns (st: State)
    requires given.Valid() && given.err.None?
    ensures st == ReadItem(item, given)
  {
    hide ReadParts;
    st := given;
    if |item| == 0 || StartsWith(item, "forced=") {
      return;
    }
    if StartsWith(item, "pool=") {
      var v := IndexOf(POOL_NAMES, item[5..]);
      if v < 0 {
        return st.(err := Some(Refusal(NoPooling, item[5..])));
      }
      return st.(into := st.into.(pool := POOLS[v], poolForced := {KnobPool}));
    }
    var colon := Find(item, ':');
    if colon == |item| {
      return st.(err := Some(Refusal(NoItem, item)));
    }
    var all := item[..colon] == "all";
    var bin := IndexOf(BIN_NAMES, item[..colon]);
    if !all && bin < 0 {
      return st.(err := Some(Refusal(NoBin, item[..colon])));
    }
    st := ParseParts(item[colon + 1..], if all then None else Some(bin as nat), st);
  }
}
