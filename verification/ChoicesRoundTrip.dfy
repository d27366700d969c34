/** Printing a session's choices and reading the line back. */
module ChoicesRoundTrip {
  import opened CudaChoices
  import opened ChoicesNames
  import opened ChoicesText
  import opened Decimals

  // ---- Cutting printed text up again ----

  lemma FindIs(s: string, ch: char, i: nat)
    requires i <= |s| && ch !in s[..i] && (i < |s| ==> s[i] == ch)
    ensures Find(s, ch) == i
  {
  }

  lemma FindIn(a: string, ch: char, rest: string)
    requires ch !in a
    ensures var s := a + [ch] + rest;
      Find(s, ch) == |a| && s[..|a|] == a && s[|a| + 1..] == rest
    ensures Find(a, ch) == |a|
  {
    var s := a + [ch] + rest;
    assert s[..|a|] == a && a[..|a|] == a;
    FindIs(s, ch, |a|);
    FindIs(a, ch, |a|);
  }

  lemma EndedCons(a: string, ch: char, rest: string)
    requires ch !in a
    ensures Ended(a + [ch] + rest, ch) == [a] + Ended(rest, ch)
  {
    FindIn(a, ch, rest);
  }

  lemma EndedOne(a: string, ch: char)
    requires ch !in a && a != ""
    ensures Ended(a, ch) == [a]
  {
    FindIn(a, ch, "");
  }

  lemma SplitCons(a: string, ch: char, rest: string)
    requires ch !in a
    ensures Split(a + [ch] + rest, ch) == [a] + Split(rest, ch)
  {
    FindIn(a, ch, rest);
  }

  lemma SplitOne(a: string, ch: char)
    requires ch !in a
    ensures Split(a, ch) == [a]
  {
    FindIn(a, ch, "");
  }

  // ---- Numbers ----

  lemma {:induction false} DigitsRun(s: string, i: nat)
    requires i <= |s| && forall k :: 0 <= k < |s| ==> IsDigit(s[k])
    ensures DigitsEnd(s, i) == |s|
    decreases |s| - i
  {
    if i < |s| {
      DigitsRun(s, i + 1);
    }
  }

  lemma StrtolOfDecimal(n: nat)
    ensures Strtol(Decimal(n)) == (n, |Decimal(n)|)
  {
    var s := Decimal(n);
    DecimalReads(n);
    DigitsRun(s, 0);
    assert IsDigit(s[0]);
    assert SpacesEnd(s, 0) == 0;
    assert s[0..|s|] == s;
  }

  // ---- One GEMM ----

  /** A choice the line can say: a tile with a name, and no more steps than
      the parser takes. */
  predicate Sayable(g: GemmChoice) {
    g.tile != Default && (g.sk.Stream? ==> PrintedSteps(g) <= 64)
  }

  /** The choice a printed one reads back as. */
  function Printed(g: GemmChoice): GemmChoice {
    g.(steps := if g.sk.Tiles? then 0 else PrintedSteps(g))
  }

  lemma ReadStepsPiece(n: nat, st: GemmState)
    requires st.err.None? && n > 0
    ensures var r := ReadPiece("sk" + Decimal(n), st);
      if n <= 64 then r == GemmState(st.g.(sk := Stream, steps := n), st.forced + {KnobSk}, None) else r.err.Some?
  {
    var q := "sk" + Decimal(n);
    assert q[..2] == "sk" && q[2..] == Decimal(n);
    assert q[0] == 's';
    StrtolOfDecimal(n);
    DecimalReads(n);
  }

  function SkPiece(g: GemmChoice): string {
    if g.sk.Tiles? then "tiles" else "sk" + Decimal(PrintedSteps(g))
  }

  lemma SkPieceIsPlain(g: GemmChoice)
    ensures Plain(SkPiece(g)) && SkPiece(g) != ""
  {
    DecimalReads(PrintedSteps(g));
  }

  lemma GemmPieces(g: GemmChoice)
    ensures Split(GemmItem(g), '/') == [TileName(g.tile), SkPiece(g)] + (if g.tf32 then ["tf32"] else [])
    ensures GemmItem(g) != "" && ';' !in GemmItem(g) && ',' !in GemmItem(g)
  {
    hide Split, TileName, Decimal, TileNamed, SkPiece;
    var t, sk := TileName(g.tile), SkPiece(g);
    TilesAreNamed(g.tile);
    SkPieceIsPlain(g);
    GemmItemIs(g);
    if g.tf32 {
      SplitCons(t, '/', sk + "/" + "tf32");
      SplitCons(sk, '/', "tf32");
      SplitOne("tf32", '/');
    } else {
      SplitCons(t, '/', sk);
      SplitOne(sk, '/');
    }
  }

  lemma GemmItemIs(g: GemmChoice)
    ensures GemmItem(g) == TileName(g.tile) + "/" + (if g.tf32 then SkPiece(g) + "/" + "tf32" else SkPiece(g))
  {
    hide Split, TileName, Decimal, TileNamed;
    assert "/tiles" == "/" + "tiles";
    assert "/sk" == "/" + "sk";
    assert "/tf32" == "/" + "tf32";
  }

  /** A printed GEMM reads back as itself exactly when it can be said. */
  lemma ReadPrintedGemm(g: GemmChoice, h: GemmChoice, forced: set<Knob>)
    ensures var r := ReadGemm(GemmItem(g), h, forced);
      if Sayable(g) then r == GemmState(Printed(g), forced + {KnobTile, KnobTf32, KnobSk}, None) else r.err.Some?
  {
    hide Split, TileName, Decimal, TileNamed;
    TilesAreNamed(g.tile);
    GemmPieces(g);
    var ps := Split(GemmItem(g), '/');
    if g.tile != Default {
      var st0 := GemmState(h.(tile := g.tile, tf32 := false), forced + {KnobTile, KnobTf32}, None);
      var st1 := ReadPiece(ps[1], st0);
      if g.sk.Stream? {
        ReadStepsPiece(PrintedSteps(g), st0);
      }
      assert ps[1..][1..] == if g.tf32 then ["tf32"] else [];
      assert ps[1..][0] == ps[1];
      assert ReadPieces(ps[1..], st0) == ReadPieces(ps[1..][1..], st1);
      if g.tf32 && st1.err.None? {
        assert ["tf32"][1..] == [];
        assert ReadPieces(["tf32"], st1) == ReadPieces([], ReadPiece("tf32", st1));
      }
    }
  }

  // ---- One bin ----

  ghost predicate SayableFrom(bc: BinChoices, g: nat)
    requires bc.Valid()
  {
    forall i :: g <= i < GEMM_COUNT ==> Sayable(bc.gemm[i])
  }

  /** What printed choices leave of a bin, from GEMM g on: every choice as
      printed, every knob forced. */
  function Overlay(bc: BinChoices, old': BinChoices, g: nat): (r: BinChoices)
    requires bc.Valid() && old'.Valid()
    ensures r.Valid()
  {
    BinChoices(
      seq(GEMM_COUNT, i requires 0 <= i < GEMM_COUNT => if i >= g then Printed(bc.gemm[i]) else old'.gemm[i]),
      seq(GEMM_COUNT, i requires 0 <= i < GEMM_COUNT =>
        old'.gemmForced[i] + (if i >= g then {KnobTile, KnobTf32, KnobSk} else {})),
      bc.attention, bc.ln, old'.forced + {KnobAttn, KnobLn})
  }

  function WithBin(st: State, b: nat, bc: BinChoices): (r: State)
    requires st.Valid() && b < st.into.bins && bc.Valid()
    ensures r.Valid()
  {
    st.(into := st.into.(bin := st.into.bin[b := bc]))
  }

  lemma ReadKeyed(key: string, v: string, b: nat, st: State)
    requires st.Valid() && b < st.into.bins && st.err.None? && '=' !in key
    ensures var p := ReadPart(key, v, st.into.bin[b]);
      ReadPartOf(key + "=" + v, Some(b), st) == WithBin(st, b, p.bc).(err := p.err)
  {
    hide ReadPart, Find;
    FindIn(key, '=', v);
    var p := ReadPart(key, v, st.into.bin[b]);
    var st' := WithBin(st, b, p.bc).(err := p.err);
    assert ReadIntoBins(key, v, b + 1, b + 1, st') == st';
  }

  lemma ReadGemmPart(bc: BinChoices, g: nat, b: nat, st: State)
    requires st.Valid() && b < st.into.bins && st.err.None? && bc.Valid() && g < GEMM_COUNT
    ensures var bin, r := st.into.bin[b], ReadPartOf(GEMM_NAMES[g] + "=" + GemmItem(bc.gemm[g]), Some(b), st);
      if Sayable(bc.gemm[g]) then
        r == WithBin(st, b, bin.(gemm := bin.gemm[g := Printed(bc.gemm[g])],
                                 gemmForced := bin.gemmForced[g := bin.gemmForced[g] + {KnobTile, KnobTf32, KnobSk}]))
      else r.err.Some?
  {
    hide ReadGemm, IndexOf, Find, GemmItem, ReadPartOf, Plain;
    GemmNamesArePlain();
    OtherNamesAreApart();
    assert '=' !in GEMM_NAMES[g] by {
      PlainWord(GEMM_NAMES, g);
    }
    NamesAreFound(GEMM_NAMES, g);
    ReadKeyed(GEMM_NAMES[g], GemmItem(bc.gemm[g]), b, st);
    ReadPrintedGemm(bc.gemm[g], st.into.bin[b].gemm[g], st.into.bin[b].gemmForced[g]);
  }

  lemma PlainWord(names: seq<string>, i: nat)
    requires AllPlain(names) && i < |names|
    ensures ';' !in names[i] && ',' !in names[i] && '/' !in names[i] && ':' !in names[i] && '=' !in names[i]
  {
  }

  lemma ReadAttnPart(a: Attention, b: nat, st: State)
    requires st.Valid() && b < st.into.bins && st.err.None?
    ensures var bin := st.into.bin[b];
      ReadPartOf("attn" + "=" + ATTN_NAMES[AttnIndex(a)], Some(b), st)
      == WithBin(st, b, bin.(attention := a, forced := bin.forced + {KnobAttn}))
  {
    hide ReadPartOf, Find, Plain;
    NotAGemm();
    OtherNamesAreApart();
    NamesAreFound(ATTN_NAMES, AttnIndex(a));
    ReadKeyed("attn", ATTN_NAMES[AttnIndex(a)], b, st);
  }

  lemma ReadLnPart(l: LayerNorm, b: nat, st: State)
    requires st.Valid() && b < st.into.bins && st.err.None?
    ensures var bin := st.into.bin[b];
      ReadPartOf("ln" + "=" + LN_NAMES[LnIndex(l)], Some(b), st)
      == WithBin(st, b, bin.(ln := l, forced := bin.forced + {KnobLn}))
  {
    hide ReadPartOf, Find, Plain;
    NotAGemm();
    OtherNamesAreApart();
    NamesAreFound(LN_NAMES, LnIndex(l));
    ReadKeyed("ln", LN_NAMES[LnIndex(l)], b, st);
  }

  lemma NotAGemm()
    ensures IndexOf(GEMM_NAMES, "attn") == -1 && IndexOf(GEMM_NAMES, "ln") == -1
  {
  }

  lemma LastPartsCut(bc: BinChoices)
    requires bc.Valid()
    ensures ';' !in PartsFrom(bc, GEMM_COUNT)
    ensures Ended(PartsFrom(bc, GEMM_COUNT), ',') ==
      ["attn" + "=" + ATTN_NAMES[AttnIndex(bc.attention)], "ln" + "=" + LN_NAMES[LnIndex(bc.ln)]]
  {
    hide Find, Ended, Plain;
    AttnNamesArePlain();
    LnAndPoolNamesArePlain();
    PlainWord(ATTN_NAMES, AttnIndex(bc.attention));
    PlainWord(LN_NAMES, LnIndex(bc.ln));
    var p, q := "attn" + "=" + ATTN_NAMES[AttnIndex(bc.attention)], "ln" + "=" + LN_NAMES[LnIndex(bc.ln)];
    assert PartsFrom(bc, GEMM_COUNT) == p + "," + q;
    EndedCons(p, ',', q);
    EndedOne(q, ',');
  }

  /** The attention and the LayerNorm, which always read back. */
  lemma ReadLastParts(bc: BinChoices, b: nat, st: State)
    requires st.Valid() && b < st.into.bins && st.err.None? && bc.Valid()
    ensures ReadParts(Ended(PartsFrom(bc, GEMM_COUNT), ','), Some(b), st)
      == WithBin(st, b, Overlay(bc, st.into.bin[b], GEMM_COUNT))
  {
    hide ReadPartOf, Find, IndexOf, Plain, Ended, PartsFrom, Overlay;
    LastPartsCut(bc);
    var p, q := "attn" + "=" + ATTN_NAMES[AttnIndex(bc.attention)], "ln" + "=" + LN_NAMES[LnIndex(bc.ln)];
    ReadAttnPart(bc.attention, b, st);
    var st1 := ReadPartOf(p, Some(b), st);
    ReadLnPart(bc.ln, b, st1);
    FirstPart(p, [q], Some(b), st);
    FirstPart(q, [], Some(b), st1);
    assert [p, q] == [p] + [q] && [q] == [q] + [];
    OverlayLast(bc, st.into.bin[b]);
  }

  lemma OverlayLast(bc: BinChoices, bin: BinChoices)
    requires bc.Valid() && bin.Valid()
    ensures bin.(attention := bc.attention, ln := bc.ln, forced := bin.forced + {KnobAttn} + {KnobLn})
      == Overlay(bc, bin, GEMM_COUNT)
  {
    var r := Overlay(bc, bin, GEMM_COUNT);
    assert forall i :: 0 <= i < GEMM_COUNT ==> r.gemmForced[i] == bin.gemmForced[i];
    assert r.gemm == bin.gemm && r.gemmForced == bin.gemmForced;
    assert r.forced == bin.forced + {KnobAttn} + {KnobLn};
  }

  lemma OverlayStep(bc: BinChoices, bin: BinChoices, g: nat)
    requires bc.Valid() && bin.Valid() && g < GEMM_COUNT
    ensures var next := bin.(gemm := bin.gemm[g := Printed(bc.gemm[g])],
                             gemmForced := bin.gemmForced[g := bin.gemmForced[g] + {KnobTile, KnobTf32, KnobSk}]);
      Overlay(bc, next, g + 1) == Overlay(bc, bin, g)
  {
    var next := bin.(gemm := bin.gemm[g := Printed(bc.gemm[g])],
                     gemmForced := bin.gemmForced[g := bin.gemmForced[g] + {KnobTile, KnobTf32, KnobSk}]);
    var r, s := Overlay(bc, next, g + 1), Overlay(bc, bin, g);
    assert r.gemm == s.gemm;
    assert forall i :: 0 <= i < GEMM_COUNT ==> r.gemmForced[i] == s.gemmForced[i];
    assert r.gemmForced == s.gemmForced;
  }

  lemma PartsCut(bc: BinChoices, g: nat)
    requires bc.Valid() && g < GEMM_COUNT
    ensures var part := GEMM_NAMES[g] + "=" + GemmItem(bc.gemm[g]);
      && Ended(PartsFrom(bc, g), ',') == [part] + Ended(PartsFrom(bc, g + 1), ',')
      && (';' !in PartsFrom(bc, g + 1) ==> ';' !in PartsFrom(bc, g))
  {
    hide GemmItem, Ended, Plain;
    var part, rest := GEMM_NAMES[g] + "=" + GemmItem(bc.gemm[g]), PartsFrom(bc, g + 1);
    GemmNamesArePlain();
    PlainWord(GEMM_NAMES, g);
    GemmPieces(bc.gemm[g]);
    EndedCons(part, ',', rest);
    assert PartsFrom(bc, g) == part + "," + rest;
  }

  /** A printed bin reads back exactly when each of its GEMMs can be said. */
  lemma {:induction false} ReadPrintedBin(bc: BinChoices, g: nat, b: nat, st: State)
    requires st.Valid() && b < st.into.bins && st.err.None? && bc.Valid() && g <= GEMM_COUNT
    ensures ';' !in PartsFrom(bc, g)
    ensures var r := ReadParts(Ended(PartsFrom(bc, g), ','), Some(b), st);
      if SayableFrom(bc, g) then r == WithBin(st, b, Overlay(bc, st.into.bin[b], g)) else r.err.Some?
    decreases GEMM_COUNT - g
  {
    hide ReadPartOf, GemmItem, Ended, Plain, PartsFrom, Sayable;
    if g == GEMM_COUNT {
      LastPartsCut(bc);
      ReadLastParts(bc, b, st);
      return;
    }
    var part := GEMM_NAMES[g] + "=" + GemmItem(bc.gemm[g]);
    PartsCut(bc, g);
    ReadGemmPart(bc, g, b, st);
    var st1 := ReadPartOf(part, Some(b), st);
    FirstPart(part, Ended(PartsFrom(bc, g + 1), ','), Some(b), st);
    ReadPrintedBin(bc, g + 1, b, if st1.err.None? then st1 else st);
    if Sayable(bc.gemm[g]) {
      OverlayStep(bc, st.into.bin[b], g);
    }
  }

  // ---- The line ----

  /** Every GEMM of the bins from b on can be said. */
  ghost predicate SayableBins(c: Choices, b: nat)
    requires c.Valid()
  {
    forall i :: b <= i < c.bins ==> SayableFrom(c.bin[i], 0)
  }

  /** What c's line leaves of a session's choices, from bin b on. */
  function OverlayBins(c: Choices, into: Choices, b: nat): (r: Choices)
    requires c.Valid() && into.Valid() && into.bins == c.bins
    ensures r.Valid() && r.bins == c.bins
  {
    into.(bin := seq(BIN_COUNT, i requires 0 <= i < BIN_COUNT =>
            if b <= i < c.bins then Overlay(c.bin[i], into.bin[i], 0) else into.bin[i]),
          pool := c.pool, poolForced := {KnobPool})
  }

  lemma {:induction false} KnobsArePlain(k: set<Knob>, i: nat, first: bool)
    requires i <= |KNOBS|
    ensures ';' !in KnobsFrom(k, i, first)
    decreases |KNOBS| - i
  {
    if i < |KNOBS| {
      assert ';' !in KNOB_NAMES[i];
      KnobsArePlain(k, i + 1, first);
      KnobsArePlain(k, i + 1, false);
    }
  }

  lemma ReadPoolItem(p: Pool, st: State)
    requires st.Valid()
    ensures var item := "pool=" + POOL_NAMES[PoolIndex(p)];
      ';' !in item && ReadItem(item, st) == st.(into := st.into.(pool := p, poolForced := {KnobPool}))
  {
    hide Plain, Find, IndexOf, Ended;
    var w := POOL_NAMES[PoolIndex(p)];
    LnAndPoolNamesArePlain();
    PlainWord(POOL_NAMES, PoolIndex(p));
    OtherNamesAreApart();
    NamesAreFound(POOL_NAMES, PoolIndex(p));
    var item := "pool=" + w;
    assert item[..5] == "pool=" && item[5..] == w && item[0] == 'p';
    assert |item| >= 7 ==> item[..7][0] == 'p' && "forced="[0] == 'f';
  }

  /** The pooling, and the forced= item, which is passed over. */
  lemma ReadLastItems(c: Choices, st: State)
    requires c.Valid() && st.Valid() && st.err.None? && st.into.bins == c.bins
    ensures ReadItems(Ended(FormatFrom(c, c.bins), ';'), st)
      == st.(into := st.into.(pool := c.pool, poolForced := {KnobPool}))
  {
    hide Plain, Find, IndexOf, Ended, KnobsFrom, ForcedKnobs, ReadItems;
    var item, q := "pool=" + POOL_NAMES[PoolIndex(c.pool)], "forced=" + KnobsFrom(ForcedKnobs(c), 0, true);
    assert q[..7] == "forced=";
    KnobsArePlain(ForcedKnobs(c), 0, true);
    ReadPoolItem(c.pool, st);
    assert FormatFrom(c, c.bins) == item + ";" + q;
    EndedCons(item, ';', q);
    EndedOne(q, ';');
    PassedOver(q, st.(into := st.into.(pool := c.pool, poolForced := {KnobPool})));
    var st1 := st.(into := st.into.(pool := c.pool, poolForced := {KnobPool}));
    FirstItem(item, [q], st);
    FirstItem(q, [], st1);
    NoItems(st1);
    assert [item, q] == [item] + [q] && [q] == [q] + [];
  }

  lemma NoItems(st: State)
    requires st.Valid()
    ensures ReadItems([], st) == st
  {
  }

  lemma PassedOver(item: string, st: State)
    requires st.Valid() && StartsWith(item, "forced=")
    ensures ReadItem(item, st) == st
  {
  }

  lemma BinItemOpens(b: nat, parts: string)
    requires b < BIN_COUNT
    ensures var item := BIN_NAMES[b] + ":" + parts;
      && item != "" && !StartsWith(item, "forced=") && !StartsWith(item, "pool=")
      && Find(item, ':') == |BIN_NAMES[b]| < |item|
      && item[..|BIN_NAMES[b]|] == BIN_NAMES[b] && item[|BIN_NAMES[b]| + 1..] == parts
      && BIN_NAMES[b] != "all" && IndexOf(BIN_NAMES, BIN_NAMES[b]) == b
  {
    hide Plain, IndexOf, Find;
    BinNamesArePlain();
    PlainWord(BIN_NAMES, b);
    OtherNamesAreApart();
    NamesAreFound(BIN_NAMES, b);
    FindIn(BIN_NAMES[b], ':', parts);
    var item := BIN_NAMES[b] + ":" + parts;
    assert item[0] == BIN_NAMES[b][0] && BIN_NAMES[b][0] in {'l', 'g'};
    assert |item| >= 7 ==> item[..7][0] == item[0];
    assert |item| >= 5 ==> item[..5][0] == item[0];
    assert "forced="[0] == 'f' && "pool="[0] == 'p' && "all"[0] == 'a';
  }

  lemma ReadBinItem(c: Choices, b: nat, st: State)
    requires c.Valid() && b < c.bins && st.Valid() && st.err.None? && st.into.bins == c.bins
    ensures var item := BIN_NAMES[b] + ":" + PartsFrom(c.bin[b], 0);
      && ';' !in item
      && (if SayableFrom(c.bin[b], 0) then ReadItem(item, st) == WithBin(st, b, Overlay(c.bin[b], st.into.bin[b], 0))
          else ReadItem(item, st).err.Some?)
  {
    hide Plain, Find, IndexOf, Ended, PartsFrom, Overlay, ReadParts, StartsWith;
    BinItemOpens(b, PartsFrom(c.bin[b], 0));
    BinNamesArePlain();
    PlainWord(BIN_NAMES, b);
    ReadPrintedBin(c.bin[b], 0, b, st);
  }

  lemma {:induction false} ReadPrintedBins(c: Choices, b: nat, st: State)
    requires c.Valid() && b <= c.bins && st.Valid() && st.err.None? && st.into.bins == c.bins
    ensures var r := ReadItems(Ended(FormatFrom(c, b), ';'), st);
      if SayableBins(c, b) then r == st.(into := OverlayBins(c, st.into, b)) else r.err.Some?
    decreases c.bins - b
  {
    hide Plain, Find, Ended, ReadItem, Overlay, PartsFrom, SayableFrom;
    if b == c.bins {
      ReadLastItems(c, st);
      assert OverlayBins(c, st.into, b).bin == st.into.bin;
      return;
    }
    var item, rest := BIN_NAMES[b] + ":" + PartsFrom(c.bin[b], 0), FormatFrom(c, b + 1);
    ReadBinItem(c, b, st);
    EndedCons(item, ';', rest);
    assert FormatFrom(c, b) == item + ";" + rest;
    var st1 := ReadItem(item, st);
    FirstItem(item, Ended(rest, ';'), st);
    ReadPrintedBins(c, b + 1, if st1.err.None? then st1 else st);
    if SayableFrom(c.bin[b], 0) {
      assert OverlayBins(c, st1.into, b + 1).bin == OverlayBins(c, st.into, b).bin;
    }
  }

  /** A session's line is read back without complaint by a session with the
      same bins exactly when every GEMM of those bins has a named tile and at
      most 64 stream-K steps; and then every choice is as printed, every
      knob is forced, and no bin was missed. */
  lemma LineReadsBack(c: Choices, into: Choices)
    requires c.Valid() && into.Valid() && into.bins == c.bins
    ensures Read(Format(c), into).err.None? <==> SayableBins(c, 0)
    ensures SayableBins(c, 0) ==> Read(Format(c), into) == State(OverlayBins(c, into, 0), {}, None)
  {
    ReadPrintedBins(c, 0, State(into, {}, None));
  }

  // ---- Forcing what ran ----

  predicate AllForced(c: Choices)
    requires c.Valid()
  {
    && c.poolForced != {}
    && forall b :: 0 <= b < c.bins ==>
      && {KnobAttn, KnobLn} <= c.bin[b].forced
      && forall g :: 0 <= g < GEMM_COUNT ==> {KnobTile, KnobSk} <= c.bin[b].gemmForced[g]
  }

  /** The kernels two sessions run are the same. */
  ghost predicate SameKernels(c: Choices, d: Choices)
    requires c.Valid() && d.Valid()
  {
    && c.bins == d.bins && c.pool == d.pool
    && forall b :: 0 <= b < c.bins ==>
      c.bin[b].gemm == d.bin[b].gemm && c.bin[b].attention == d.bin[b].attention && c.bin[b].ln == d.bin[b].ln
  }

  /** The steps are within what the parser takes. */
  predicate StepsFit(c: Choices)
    requires c.Valid()
  {
    forall b, g :: 0 <= b < c.bins && 0 <= g < GEMM_COUNT && c.bin[b].gemm[g].sk.Stream? ==>
      c.bin[b].gemm[g].steps <= 64
  }

  /** canonicalize neither lowers the steps asked for past what fits nor
      raises them there. */
  lemma StepsFitAsGiven(base: Shape, c: Choices)
    requires base.Valid() && c.Valid() && Canonical(base, c).Valid()
    ensures StepsFit(Canonical(base, c)) <==> StepsFit(c)
  {
    hide CanonicalGemm, CanonicalAttention;
    var ran := Canonical(base, c);
    forall b, g | 0 <= b < c.bins && 0 <= g < GEMM_COUNT
      ensures ran.bin[b].gemm[g].sk == c.bin[b].gemm[g].sk
      ensures c.bin[b].gemm[g].sk.Stream? ==> (ran.bin[b].gemm[g].steps <= 64 <==> c.bin[b].gemm[g].steps <= 64)
    {
      StepsAre(g, base, c.bin[b].gemm[g]);
      assert ran.bin[b].gemm[g] == CanonicalSteps(CanonicalGemm(g, base, c.bin[b].gemm[g]));
    }
  }

  lemma StepsAre(which: nat, base: Shape, g: GemmChoice)
    ensures CanonicalGemm(which, base, g).sk == g.sk && CanonicalGemm(which, base, g).steps == g.steps
  {
  }

  /** The line of canonical choices, forced back on any session of the same
      shape and bins, is accepted exactly when the steps asked for fit; it then
      forces everything, runs the same kernels, and canonicalizing changes
      none. */
  lemma ForcingBackRunsTheSame(base: Shape, c: Choices, into: Choices)
    requires base.Valid() && c.Valid() && into.Valid() && into.bins == c.bins
    ensures var ran := Canonical(base, c);
      && ran.Valid() && ran.bins == c.bins
      && var r := Read(Format(ran), into);
      && (r.err.None? <==> StepsFit(c))
      && (StepsFit(c) ==>
            && r.absent == {} && AllForced(r.into)
            && SameKernels(r.into, ran) && SameKernels(Canonical(base, r.into), r.into))
  {
    hide Read, Format, CanonicalGemm, CanonicalAttention;
    var ran := Canonical(base, c);
    CanonicalizeIsIdempotent(base, c);
    LineReadsBack(ran, into);
    CanonicalIsSayable(base, c);
    StepsFitAsGiven(base, c);
    if StepsFit(ran) {
      var d := OverlayBins(ran, into, 0);
      forall b | 0 <= b < c.bins
        ensures d.bin[b].gemm == ran.bin[b].gemm
        ensures CanonicalBin(base, d.bin[b]).gemm == d.bin[b].gemm
        ensures CanonicalBin(base, d.bin[b]).attention == d.bin[b].attention
        ensures CanonicalBin(base, d.bin[b]).ln == d.bin[b].ln
      {
        assert forall g :: 0 <= g < GEMM_COUNT ==> RunsAsNamed(base, ran.bin[b].gemm[g]);
        assert d.bin[b].gemm == ran.bin[b].gemm;
        assert Canonical(base, ran).bin[b] == ran.bin[b] == CanonicalBin(base, ran.bin[b]);
      }
    }
  }

  lemma CanonicalIsSayable(base: Shape, c: Choices)
    requires base.Valid() && c.Valid()
    ensures var ran := Canonical(base, c);
      ran.Valid() && (SayableBins(ran, 0) <==> StepsFit(ran))
  {
    hide CanonicalGemm, CanonicalAttention;
    var ran := Canonical(base, c);
    CanonicalizeIsIdempotent(base, c);
    assert forall b, g :: 0 <= b < c.bins && 0 <= g < GEMM_COUNT ==> RunsAsNamed(base, ran.bin[b].gemm[g]);
    if SayableBins(ran, 0) {
      forall b, g | 0 <= b < c.bins && 0 <= g < GEMM_COUNT && ran.bin[b].gemm[g].sk.Stream?
        ensures ran.bin[b].gemm[g].steps <= 64
      {
        assert SayableFrom(ran.bin[b], 0);
        assert Sayable(ran.bin[b].gemm[g]);
      }
    }
  }

  /** Choices with one bin whose GEMMs ask for 65 stream-K steps: canonical,
      and so printed as they stand, but more than the parser takes. */
  function SixtyFiveSteps(): (c: Choices)
    ensures c.Valid()
  {
    var g := GemmChoice(T128x64, Stream, 65, false);
    var bc := BinChoices([g, g, g, g], [{}, {}, {}, {}], FmaTiled, Separate, {});
    Choices(1, [bc, bc, bc, bc, bc], Groups, {})
  }

  lemma SixtyFiveStepsAreRefused(base: Shape)
    requires base.Valid() && !base.half && !base.tensorCores
    ensures Canonical(base, SixtyFiveSteps()) == SixtyFiveSteps()
    ensures Read(Format(SixtyFiveSteps()), SixtyFiveSteps()).err.Some?
  {
    var c := SixtyFiveSteps();
    forall b | 0 <= b < BIN_COUNT
      ensures CanonicalBin(base, c.bin[b]) == c.bin[b]
    {
      assert CanonicalGemms(base, c.bin[b].gemm) == c.bin[b].gemm;
    }
    assert Canonical(base, c).bin == c.bin;
    ForcingBackRunsTheSame(base, c, c);
    assert !StepsFit(c) by {
      assert c.bin[0].gemm[0].steps == 65;
    }
  }
}
