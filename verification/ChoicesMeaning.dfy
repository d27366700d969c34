/** What an accepted line does, told without the parser: which lines are
    accepted, and that each bin takes its own parts in turn and nothing else. */
module ChoicesMeaning {
  import opened CudaChoices
  import opened ChoicesNames
  import opened ChoicesText
  import opened Decimals
  import opened ChoicesRoundTrip

  // ---- Which lines are accepted ----

  predicate PieceOk(q: string) {
    || q == "tf32" || q == "tiles"
    || (2 < |q| < 10 && q[..2] == "sk" && Strtol(q[2..]).1 == |q| - 2 && 1 <= Strtol(q[2..]).0 <= 64)
  }

  predicate GemmOk(v: string) {
    var ps := Split(v, '/');
    TileNamed(TILE_NAMES, TILES, ps[0]).Some? && forall i :: 1 <= i < |ps| ==> PieceOk(ps[i])
  }

  /** A bin takes the value for the key. */
  predicate ValueOk(key: string, v: string) {
    || (key in GEMM_NAMES && GemmOk(v))
    || (key == "attn" && v in ATTN_NAMES)
    || (key == "ln" && v in LN_NAMES)
  }

  function KeyOf(part: string): string { part[..Find(part, '=')] }

  function ValueOf(part: string): string
    requires '=' in part
  {
    part[Find(part, '=') + 1..]
  }

  /** A part is read by the bins of the session; a bin the session lacks
      looks no further than its "=". */
  predicate PartOk(part: string, read: bool) {
    '=' in part && (read ==> ValueOk(KeyOf(part), ValueOf(part)))
  }

  function NameOf(item: string): string { item[..Find(item, ':')] }

  function PartsOf(item: string): seq<string> {
    if ':' in item then Ended(item[Find(item, ':') + 1..], ',') else []
  }

  predicate PassedBy(item: string) { item == "" || StartsWith(item, "forced=") }

  predicate NamesPool(item: string) { !PassedBy(item) && StartsWith(item, "pool=") }

  /** An item of parts for bins. */
  predicate NamesBins(item: string) { !PassedBy(item) && !NamesPool(item) }

  /** The item's parts go to bin b. */
  predicate Targets(item: string, b: nat)
    requires b < BIN_COUNT
  {
    NamesBins(item) && (NameOf(item) == "all" || NameOf(item) == BIN_NAMES[b])
  }

  /** Some bin of the session is one the item names. */
  predicate InSession(item: string, bins: nat)
    requires 1 <= bins <= BIN_COUNT
  {
    NameOf(item) == "all" || exists b :: 0 <= b < bins && NameOf(item) == BIN_NAMES[b]
  }

  predicate ItemOk(item: string, bins: nat)
    requires 1 <= bins <= BIN_COUNT
  {
    || PassedBy(item)
    || (NamesPool(item) && item[5..] in POOL_NAMES)
    || (NamesBins(item) && ':' in item && (NameOf(item) == "all" || NameOf(item) in BIN_NAMES)
        && forall p :: p in PartsOf(item) ==> PartOk(p, InSession(item, bins)))
  }

  // ---- What an accepted line leaves ----

  /** A bin after the parts, in turn. */
  function TakeParts(parts: seq<string>, bc: BinChoices): (r: BinChoices)
    requires bc.Valid() && forall p :: p in parts ==> '=' in p
    ensures r.Valid()
  {
    if parts == [] then bc
    else
      assert parts[0] in parts;
      TakeParts(parts[1..], ReadPart(KeyOf(parts[0]), ValueOf(parts[0]), bc).bc)
  }

  /** The parts the items hold for bin b, in the order of the line. */
  function PartsFor(items: seq<string>, b: nat): seq<string>
    requires b < BIN_COUNT
  {
    if items == [] then [] else (if Targets(items[0], b) then PartsOf(items[0]) else []) + PartsFor(items[1..], b)
  }

  ghost predicate AllOk(items: seq<string>, bins: nat)
    requires 1 <= bins <= BIN_COUNT
  {
    forall i :: i in items ==> ItemOk(i, bins)
  }

  /** The last pooling the items name, if any. */
  function PoolOf(items: seq<string>): Option<string> {
    if items == [] then None
    else
      var rest := PoolOf(items[1..]);
      if rest.Some? then rest else if NamesPool(items[0]) then Some(items[0][5..]) else None
  }

  /** Bins named with parts that the session lacks. */
  function Missing(items: seq<string>, bins: nat): set<nat> {
    set b: nat, i | bins <= b < BIN_COUNT && 0 <= i < |items| && NamesBins(items[i]) && NameOf(items[i]) == BIN_NAMES[b]
      && PartsOf(items[i]) != [] :: b
  }

  lemma {:induction false} PartsForHaveKeys(items: seq<string>, bins: nat, b: nat)
    requires 1 <= bins <= BIN_COUNT && b < BIN_COUNT && AllOk(items, bins)
    ensures forall p :: p in PartsFor(items, b) ==> '=' in p
  {
    if items != [] {
      assert items[0] in items;
      PartsForHaveKeys(items[1..], bins, b);
    }
  }

  /** The state an accepted line leaves: each bin that exists took its own
      parts, the rest of the bins stand, the pooling is the last named, and
      what the session lacks is noted. */
  function Meaning(items: seq<string>, st: State): (r: State)
    requires st.Valid() && AllOk(items, st.into.bins)
    ensures r.Valid() && r.into.bins == st.into.bins
  {
    var bin := seq(BIN_COUNT, b requires 0 <= b < BIN_COUNT =>
      if b < st.into.bins then
        PartsForHaveKeys(items, st.into.bins, b);
        TakeParts(PartsFor(items, b), st.into.bin[b])
      else st.into.bin[b]);
    var pool := PoolOf(items);
    State(st.into.(bin := bin,
                   pool := if pool.Some? && pool.value in POOL_NAMES then POOLS[IndexOf(POOL_NAMES, pool.value)]
                           else st.into.pool,
                   poolForced := if pool.Some? then {KnobPool} else st.into.poolForced),
          st.absent + Missing(items, st.into.bins), st.err)
  }

  // ---- Proof ----

  lemma {:induction false} PiecesErr(pieces: seq<string>, st: GemmState)
    requires st.err.None?
    ensures ReadPieces(pieces, st).err.None? <==> forall i :: 0 <= i < |pieces| ==> PieceOk(pieces[i])
  {
    if pieces != [] {
      var next := ReadPiece(pieces[0], st);
      assert next.err.None? <==> PieceOk(pieces[0]);
      if next.err.None? {
        PiecesErr(pieces[1..], next);
        assert forall i :: 1 <= i < |pieces| ==> pieces[i] == pieces[1..][i - 1];
      }
    }
  }

  /** Whether a bin takes a part does not depend on what the bin had. */
  lemma PartErr(key: string, v: string, bc: BinChoices)
    requires bc.Valid()
    ensures ReadPart(key, v, bc).err.None? <==> ValueOk(key, v)
  {
    var g := IndexOf(GEMM_NAMES, key);
    if g >= 0 {
      NoGemmIsAttnOrLn();
      var ps := Split(v, '/');
      var t := TileNamed(TILE_NAMES, TILES, ps[0]);
      if t.Some? {
        var told := bc.gemm[g].(tile := t.value, tf32 := false);
        PiecesErr(ps[1..], GemmState(told, bc.gemmForced[g] + {KnobTile, KnobTf32}, None));
        assert forall i :: 1 <= i < |ps| ==> ps[i] == ps[1..][i - 1];
        assert forall i :: 0 <= i < |ps| - 1 ==> ps[1..][i] == ps[i + 1];
      }
    }
  }

  lemma NoGemmIsAttnOrLn()
    ensures "attn" !in GEMM_NAMES && "ln" !in GEMM_NAMES && "attn" != "ln"
  {
  }

  predicate Hit(bin: Option<nat>, b: nat) { bin.None? || bin.value == b }

  ghost predicate PartsOk(parts: seq<string>, read: bool) {
    forall p :: p in parts ==> PartOk(p, read)
  }

  predicate Reads(bin: Option<nat>, bins: nat) { bin.None? || bin.value < bins }

  /** What parts that are taken leave. */
  function Taken(parts: seq<string>, bin: Option<nat>, st: State): (r: State)
    requires st.Valid() && forall p :: p in parts ==> '=' in p
    ensures r.Valid() && r.into.bins == st.into.bins
  {
    State(st.into.(bin := seq(BIN_COUNT, b requires 0 <= b < BIN_COUNT =>
            if b < st.into.bins && Hit(bin, b) then TakeParts(parts, st.into.bin[b]) else st.into.bin[b])),
          st.absent + (if bin.Some? && bin.value >= st.into.bins && parts != [] then {bin.value} else {}), st.err)
  }

  lemma {:induction false} IntoBins(key: string, v: string, lo: nat, hi: nat, st: State)
    requires st.Valid() && lo <= hi <= st.into.bins && st.err.None?
    ensures var r := ReadIntoBins(key, v, lo, hi, st);
      if lo < hi && !ValueOk(key, v) then r.err.Some?
      else
        r == State(st.into.(bin := seq(BIN_COUNT, b requires 0 <= b < BIN_COUNT =>
                      if lo <= b < hi then ReadPart(key, v, st.into.bin[b]).bc else st.into.bin[b])), st.absent, None)
    decreases hi - lo
  {
    hide ReadPart, ValueOk;
    if lo < hi {
      PartErr(key, v, st.into.bin[lo]);
      if ValueOk(key, v) {
        var p := ReadPart(key, v, st.into.bin[lo]);
        var next := st.(into := st.into.(bin := st.into.bin[lo := p.bc]));
        IntoBins(key, v, lo + 1, hi, next);
        assert ReadIntoBins(key, v, lo, hi, st) == ReadIntoBins(key, v, lo + 1, hi, next);
        assert ReadIntoBins(key, v, lo, hi, st).into.bin == seq(BIN_COUNT, b requires 0 <= b < BIN_COUNT =>
                      if lo <= b < hi then ReadPart(key, v, st.into.bin[b]).bc else st.into.bin[b]);
      }
    } else {
      assert st.into.bin == seq(BIN_COUNT, b requires 0 <= b < BIN_COUNT => st.into.bin[b]);
    }
  }

  lemma HasKey(part: string)
    ensures '=' in part <==> Find(part, '=') < |part|
  {
    assert part[..|part|] == part;
  }

  lemma TakeOne(part: string, bc: BinChoices)
    requires bc.Valid() && '=' in part
    ensures TakeParts([part], bc) == ReadPart(KeyOf(part), ValueOf(part), bc).bc
  {
    assert [part][1..] == [];
  }

  lemma PartIs(part: string, bin: Option<nat>, st: State)
    requires st.Valid() && st.err.None? && (bin.Some? ==> bin.value < BIN_COUNT)
    ensures var r := ReadPartOf(part, bin, st);
      if PartOk(part, Reads(bin, st.into.bins)) then r == Taken([part], bin, st) else r.err.Some?
  {
    hide ReadPart, ValueOk, Find, TakeParts;
    HasKey(part);
    if '=' in part {
      var lo := if bin.Some? then bin.value else 0;
      var hi := if bin.Some? then bin.value + 1 else st.into.bins;
      forall b | 0 <= b < BIN_COUNT
        ensures TakeParts([part], st.into.bin[b]) == ReadPart(KeyOf(part), ValueOf(part), st.into.bin[b]).bc
      {
        TakeOne(part, st.into.bin[b]);
      }
      if Reads(bin, st.into.bins) {
        IntoBins(KeyOf(part), ValueOf(part), lo, hi, st);
        if ValueOk(KeyOf(part), ValueOf(part)) {
          assert ReadPartOf(part, bin, st).into.bin == Taken([part], bin, st).into.bin;
        }
      } else {
        assert Taken([part], bin, st).into.bin == st.into.bin;
      }
    }
  }

  lemma {:induction false} TakeBoth(a: seq<string>, c: seq<string>, bc: BinChoices)
    requires bc.Valid() && (forall p :: p in a ==> '=' in p) && (forall p :: p in c ==> '=' in p)
    ensures TakeParts(a + c, bc) == TakeParts(c, TakeParts(a, bc))
  {
    hide ReadPart;
    if a == [] {
      assert a + c == c;
    } else {
      assert a[0] in a && (a + c)[0] == a[0] && (a + c)[1..] == a[1..] + c;
      TakeBoth(a[1..], c, ReadPart(KeyOf(a[0]), ValueOf(a[0]), bc).bc);
    }
  }

  lemma TakenBoth(part: string, rest: seq<string>, bin: Option<nat>, st: State)
    requires st.Valid() && '=' in part && forall p :: p in rest ==> '=' in p
    ensures Taken([part] + rest, bin, st) == Taken(rest, bin, Taken([part], bin, st))
  {
    hide TakeParts;
    forall b | 0 <= b < BIN_COUNT
      ensures TakeParts([part] + rest, st.into.bin[b]) == TakeParts(rest, TakeParts([part], st.into.bin[b]))
    {
      TakeBoth([part], rest, st.into.bin[b]);
    }
    assert Taken([part] + rest, bin, st).into.bin == Taken(rest, bin, Taken([part], bin, st)).into.bin;
  }

  lemma {:induction false} PartsAre(parts: seq<string>, bin: Option<nat>, st: State)
    requires st.Valid() && st.err.None? && (bin.Some? ==> bin.value < BIN_COUNT)
    ensures var r := ReadParts(parts, bin, st);
      if PartsOk(parts, Reads(bin, st.into.bins)) then r == Taken(parts, bin, st) else r.err.Some?
  {
    hide ReadPartOf, ValueOk, TakeParts;
    if parts == [] {
      TakenNone(bin, st);
    } else {
      var p, rest := parts[0], parts[1..];
      assert parts == [p] + rest && p in parts;
      PartIs(p, bin, st);
      FirstPart(p, rest, bin, st);
      if PartOk(p, Reads(bin, st.into.bins)) {
        PartsAre(rest, bin, Taken([p], bin, st));
        if PartsOk(rest, Reads(bin, st.into.bins)) {
          KeysOf(parts, Reads(bin, st.into.bins));
          TakenBoth(p, rest, bin, st);
        }
      }
    }
  }

  lemma KeysOf(parts: seq<string>, read: bool)
    requires PartsOk(parts, read)
    ensures forall p :: p in parts ==> '=' in p
  {
  }

  lemma TakenNone(bin: Option<nat>, st: State)
    requires st.Valid()
    ensures Taken([], bin, st) == st
  {
    assert Taken([], bin, st).into.bin == st.into.bin;
  }

  // ---- Items ----

  function BinOfItem(item: string): Option<nat> {
    var b := IndexOf(BIN_NAMES, NameOf(item));
    if NameOf(item) == "all" || b < 0 then None else Some(b)
  }

  lemma HasColon(item: string)
    ensures ':' in item <==> Find(item, ':') < |item|
  {
    assert item[..|item|] == item;
  }

  lemma BinNamed(item: string, b: nat)
    requires b < BIN_COUNT && (NameOf(item) == "all" || NameOf(item) in BIN_NAMES)
    ensures NameOf(item) == BIN_NAMES[b] <==> BinOfItem(item) == Some(b)
    ensures NamesBins(item) ==> (Targets(item, b) <==> Hit(BinOfItem(item), b))
  {
    OtherNamesAreApart();
    NamesAreFound(BIN_NAMES, b);
    assert "all"[0] == 'a' && BIN_NAMES[b][0] in {'l', 'g'};
  }

  lemma SessionBins(item: string, bins: nat)
    requires 1 <= bins <= BIN_COUNT && (NameOf(item) == "all" || NameOf(item) in BIN_NAMES)
    ensures InSession(item, bins) <==> Reads(BinOfItem(item), bins)
  {
    forall b | 0 <= b < BIN_COUNT
      ensures NameOf(item) == BIN_NAMES[b] <==> BinOfItem(item) == Some(b)
    {
      BinNamed(item, b);
    }
    var i := IndexOf(BIN_NAMES, NameOf(item));
    assert BinOfItem(item).Some? ==> BIN_NAMES[i] == NameOf(item) && i < BIN_COUNT;
  }

  lemma OneItem(item: string, b: nat)
    requires b < BIN_COUNT
    ensures PartsFor([item], b) == if Targets(item, b) then PartsOf(item) else []
    ensures PoolOf([item]) == if NamesPool(item) then Some(item[5..]) else None
  {
    assert [item][1..] == [];
  }

  lemma MissingOne(item: string, bins: nat)
    requires 1 <= bins <= BIN_COUNT && ItemOk(item, bins)
    ensures Missing([item], bins) ==
      if NamesBins(item) && BinOfItem(item).Some? && BinOfItem(item).value >= bins && PartsOf(item) != []
      then {BinOfItem(item).value} else {}
  {
    hide Find, IndexOf, Ended;
    var m := Missing([item], bins);
    if NamesBins(item) {
      forall b: nat | b < BIN_COUNT
        ensures NameOf(item) == BIN_NAMES[b] <==> BinOfItem(item) == Some(b)
      {
        BinNamed(item, b);
      }
      BinOfItemIsABin(item);
      forall b: nat
        ensures b in m <==> bins <= b < BIN_COUNT && BinOfItem(item) == Some(b) && PartsOf(item) != []
      {
        assert [item][0] == item;
      }
    }
  }

  lemma BinOfItemIsABin(item: string)
    ensures BinOfItem(item).Some? ==> BinOfItem(item).value < BIN_COUNT
  {
  }

  /** An item is refused exactly when it is not one the grammar has, and
      otherwise leaves what it means. */
  lemma ItemIs(item: string, st: State)
    requires st.Valid() && st.err.None?
    ensures var r := ReadItem(item, st);
      if ItemOk(item, st.into.bins) then
        (OneOk(item, st.into.bins); r == Meaning([item], st)) else r.err.Some?
  {
    hide Find, IndexOf, Ended, TakeParts, ReadParts, StartsWith, PartOk, Missing;
    var bins := st.into.bins;
    HasColon(item);
    if NamesBins(item) && ':' in item && (NameOf(item) == "all" || NameOf(item) in BIN_NAMES) {
      BinItemIs(item, st);
    } else if ItemOk(item, bins) {
      OtherItemIs(item, st);
    }
  }

  lemma OneOk(item: string, bins: nat)
    requires 1 <= bins <= BIN_COUNT && ItemOk(item, bins)
    ensures AllOk([item], bins)
  {
  }

  lemma BinItemIs(item: string, st: State)
    requires st.Valid() && st.err.None? && NamesBins(item) && ':' in item
    requires NameOf(item) == "all" || NameOf(item) in BIN_NAMES
    ensures var r := ReadItem(item, st);
      if ItemOk(item, st.into.bins) then
        (OneOk(item, st.into.bins); r == Meaning([item], st)) else r.err.Some?
  {
    hide Find, Ended, TakeParts, ReadParts, StartsWith, PartOk, Missing, IndexOf;
    var bins, bin := st.into.bins, BinOfItem(item);
    HasColon(item);
    BinOfItemIsABin(item);
    SessionBins(item, bins);
    PartsAre(PartsOf(item), bin, st);
    assert ReadItem(item, st) == ReadParts(PartsOf(item), bin, st);
    if ItemOk(item, bins) {
      OneOk(item, bins);
      KeysOf(PartsOf(item), Reads(bin, bins));
      MissingOne(item, bins);
      forall b | 0 <= b < bins
        ensures Meaning([item], st).into.bin[b] == Taken(PartsOf(item), bin, st).into.bin[b]
      {
        OneItem(item, b);
        BinNamed(item, b);
        TakeNothing(st.into.bin[b]);
      }
      OneItem(item, 0);
      assert Meaning([item], st).into.bin == Taken(PartsOf(item), bin, st).into.bin;
    }
  }

  lemma TakeNothing(bc: BinChoices)
    requires bc.Valid()
    ensures TakeParts([], bc) == bc
  {
  }

  lemma OtherItemIs(item: string, st: State)
    requires st.Valid() && st.err.None? && !NamesBins(item) && ItemOk(item, st.into.bins)
    ensures (OneOk(item, st.into.bins); ReadItem(item, st) == Meaning([item], st))
  {
    hide Find, Ended, ReadParts, IndexOf;
    OneOk(item, st.into.bins);
    MissingOne(item, st.into.bins);
    forall b | 0 <= b < BIN_COUNT
      ensures Meaning([item], st).into.bin[b] == st.into.bin[b]
    {
      OneItem(item, b);
    }
    OneItem(item, 0);
    assert Meaning([item], st).into.bin == st.into.bin;
  }

  // ---- Lines ----

  lemma {:induction false} PartsForBoth(a: seq<string>, c: seq<string>, b: nat)
    requires b < BIN_COUNT
    ensures PartsFor(a + c, b) == PartsFor(a, b) + PartsFor(c, b)
  {
    hide Targets, PartsOf;
    if a == [] {
      assert a + c == c;
    } else {
      assert (a + c)[0] == a[0] && (a + c)[1..] == a[1..] + c;
      PartsForBoth(a[1..], c, b);
    }
  }

  lemma MissingBoth(item: string, rest: seq<string>, bins: nat)
    ensures Missing([item] + rest, bins) == Missing([item], bins) + Missing(rest, bins)
  {
    var all := [item] + rest;
    forall b: nat
      ensures b in Missing(all, bins) <==> b in Missing([item], bins) + Missing(rest, bins)
    {
      if b in Missing(all, bins) {
        var i :| bins <= b < BIN_COUNT && 0 <= i < |all| && NamesBins(all[i]) && NameOf(all[i]) == BIN_NAMES[b]
          && PartsOf(all[i]) != [];
        assert if i == 0 then [item][0] == all[0] else rest[i - 1] == all[i];
      }
      if b in Missing(rest, bins) {
        var i :| bins <= b < BIN_COUNT && 0 <= i < |rest| && NamesBins(rest[i]) && NameOf(rest[i]) == BIN_NAMES[b]
          && PartsOf(rest[i]) != [];
        assert all[i + 1] == rest[i];
      }
      if b in Missing([item], bins) {
        assert all[0] == item;
      }
    }
  }

  lemma MeaningBoth(item: string, rest: seq<string>, st: State)
    requires st.Valid() && AllOk([item], st.into.bins) && AllOk(rest, st.into.bins)
    ensures AllOk([item] + rest, st.into.bins)
    ensures Meaning([item] + rest, st) == Meaning(rest, Meaning([item], st))
  {
    hide Find, Ended, ReadParts, IndexOf, Missing, TakeParts, ItemOk, Targets;
    var bins := st.into.bins;
    var all := [item] + rest;
    assert forall i :: i in all ==> i in [item] || i in rest;
    MissingBoth(item, rest, bins);
    forall b | 0 <= b < bins
      ensures Meaning(all, st).into.bin[b] == Meaning(rest, Meaning([item], st)).into.bin[b]
    {
      PartsForBoth([item], rest, b);
      PartsForHaveKeys([item], bins, b);
      PartsForHaveKeys(rest, bins, b);
      TakeBoth(PartsFor([item], b), PartsFor(rest, b), st.into.bin[b]);
    }
    assert Meaning(all, st).into.bin == Meaning(rest, Meaning([item], st)).into.bin;
    assert all[1..] == rest && [item][1..] == [];
    PoolIsAName([item], bins);
    PoolIsAName(rest, bins);
  }

  lemma {:induction false} PoolIsAName(items: seq<string>, bins: nat)
    requires 1 <= bins <= BIN_COUNT && AllOk(items, bins)
    ensures PoolOf(items).Some? ==> PoolOf(items).value in POOL_NAMES
  {
    if items != [] {
      assert items[0] in items;
      PoolIsAName(items[1..], bins);
    }
  }

  lemma NoItemsMean(st: State)
    requires st.Valid()
    ensures AllOk([], st.into.bins) && Meaning([], st) == st
  {
    assert Meaning([], st).into.bin == st.into.bin;
    assert Missing([], st.into.bins) == {};
  }

  lemma {:induction false} ItemsAre(items: seq<string>, st: State)
    requires st.Valid() && st.err.None?
    ensures var r := ReadItems(items, st);
      if AllOk(items, st.into.bins) then r == Meaning(items, st) else r.err.Some?
  {
    hide ReadItem, ItemOk, Meaning;
    if items == [] {
      NoItemsMean(st);
    } else {
      var item, rest := items[0], items[1..];
      assert items == [item] + rest && item in items;
      ItemIs(item, st);
      FirstItem(item, rest, st);
      if ItemOk(item, st.into.bins) {
        OneOk(item, st.into.bins);
        MeaningHasNoErr([item], st);
        ItemsAre(rest, Meaning([item], st));
        if AllOk(rest, st.into.bins) {
          MeaningBoth(item, rest, st);
        }
      }
    }
  }

  lemma MeaningHasNoErr(items: seq<string>, st: State)
    requires st.Valid() && AllOk(items, st.into.bins)
    ensures Meaning(items, st).err == st.err
  {
  }

  /** A line is accepted exactly when each of its items is one the grammar
      has, whatever the session had chosen; and then each bin takes its own
      parts in the order of the line, and nothing else of the session's
      choices changes but the pooling. */
  lemma LineMeans(s: string, into: Choices)
    requires into.Valid()
    ensures Read(s, into).err.None? <==> AllOk(Ended(s, ';'), into.bins)
    ensures AllOk(Ended(s, ';'), into.bins) ==> Read(s, into) == Meaning(Ended(s, ';'), State(into, {}, None))
  {
    hide Meaning;
    ItemsAre(Ended(s, ';'), State(into, {}, None));
    if AllOk(Ended(s, ';'), into.bins) {
      MeaningHasNoErr(Ended(s, ';'), State(into, {}, None));
    }
  }

  // ---- Which knobs a line sets ----

  predicate NamesKey(parts: seq<string>, key: string) { exists p :: p in parts && KeyOf(p) == key }

  /** A part for the key that says how the launch shares its work. */
  predicate NamesSk(parts: seq<string>, key: string) {
    exists p :: p in parts && '=' in p && KeyOf(p) == key && SaysSk(ValueOf(p))
  }

  predicate SaysSk(v: string) {
    var ps := Split(v, '/');
    exists i :: 1 <= i < |ps| && ps[i] != "tf32"
  }

  /** Of a GEMM before and after: a value named for it forces its tile and
      TF32, one that says how to share the work its stream-K, and what is not
      named stands. */
  predicate GemmSet(named: bool, sk: bool, g: GemmChoice, forced: set<Knob>, h: GemmChoice, forced': set<Knob>) {
    && (!named ==> h == g)
    && (!sk ==> h.sk == g.sk && h.steps == g.steps)
    && forced' == forced + (if named then {KnobTile, KnobTf32} else {}) + (if sk then {KnobSk} else {})
  }

  /** Of a bin before and after: only what the parts name is changed, and
      exactly its knobs are forced. */
  ghost predicate SetsJust(parts: seq<string>, before: BinChoices, after: BinChoices)
    requires before.Valid() && after.Valid()
  {
    && (forall g :: 0 <= g < GEMM_COUNT ==>
          GemmSet(NamesKey(parts, GEMM_NAMES[g]), NamesSk(parts, GEMM_NAMES[g]),
                  before.gemm[g], before.gemmForced[g], after.gemm[g], after.gemmForced[g]))
    && SetsRest(NamesKey(parts, "attn"), NamesKey(parts, "ln"), before, after)
  }

  predicate SetsRest(attn: bool, ln: bool, before: BinChoices, after: BinChoices) {
    && (!attn ==> after.attention == before.attention)
    && (!ln ==> after.ln == before.ln)
    && after.forced == before.forced + (if attn then {KnobAttn} else {}) + (if ln then {KnobLn} else {})
  }

  lemma {:induction false} PiecesForce(pieces: seq<string>, st: GemmState)
    requires st.err.None? && forall i :: 0 <= i < |pieces| ==> PieceOk(pieces[i])
    ensures var r := ReadPieces(pieces, st);
      var sk := exists i :: 0 <= i < |pieces| && pieces[i] != "tf32";
      && r.err.None? && r.g.tile == st.g.tile
      && r.forced == st.forced + (if sk then {KnobSk} else {})
      && (!sk ==> r.g.sk == st.g.sk && r.g.steps == st.g.steps)
  {
    if pieces != [] {
      var next := ReadPiece(pieces[0], st);
      PiecesForce(pieces[1..], next);
      assert forall i :: 0 <= i < |pieces| - 1 ==> pieces[1..][i] == pieces[i + 1];
      assert forall i :: 1 <= i < |pieces| ==> pieces[i] == pieces[1..][i - 1];
    }
  }

  lemma GemmForces(v: string, g: GemmChoice, forced: set<Knob>)
    requires GemmOk(v)
    ensures var r := ReadGemm(v, g, forced); GemmSet(true, SaysSk(v), g, forced, r.g, r.forced)
  {
    var ps := Split(v, '/');
    var t := TileNamed(TILE_NAMES, TILES, ps[0]).value;
    assert forall i :: 1 <= i < |ps| ==> ps[i] == ps[1..][i - 1];
    assert forall i :: 0 <= i < |ps| - 1 ==> ps[1..][i] == ps[i + 1];
    PiecesForce(ps[1..], GemmState(g.(tile := t, tf32 := false), forced + {KnobTile, KnobTf32}, None));
  }

  lemma GemmStands(g: GemmChoice, forced: set<Knob>)
    ensures GemmSet(false, false, g, forced, g, forced)
  {
  }

  lemma OnePart(part: string, key: string)
    requires '=' in part
    ensures NamesKey([part], key) <==> KeyOf(part) == key
    ensures NamesSk([part], key) <==> KeyOf(part) == key && SaysSk(ValueOf(part))
  {
    assert part in [part];
  }

  lemma GemmPartSetsJust(part: string, bc: BinChoices)
    requires bc.Valid() && PartOk(part, true) && KeyOf(part) in GEMM_NAMES
    ensures SetsJust([part], bc, TakeParts([part], bc))
  {
    hide GemmOk, SaysSk, ReadGemm, Find, TakeParts, NamesKey, NamesSk, GemmSet, SetsRest;
    var key, v, after := KeyOf(part), ValueOf(part), TakeParts([part], bc);
    TakeOne(part, bc);
    NoGemmIsAttnOrLn();
    OnePart(part, "attn");
    OnePart(part, "ln");
    OtherNamesAreApart();
    var g := IndexOf(GEMM_NAMES, key);
    GemmForces(v, bc.gemm[g], bc.gemmForced[g]);
    forall i | 0 <= i < GEMM_COUNT
      ensures GemmSet(NamesKey([part], GEMM_NAMES[i]), NamesSk([part], GEMM_NAMES[i]),
                      bc.gemm[i], bc.gemmForced[i], after.gemm[i], after.gemmForced[i])
    {
      OnePart(part, GEMM_NAMES[i]);
      GemmStands(bc.gemm[i], bc.gemmForced[i]);
    }
    RestStands(bc, after);
  }

  lemma RestStands(bc: BinChoices, after: BinChoices)
    requires after.(gemm := bc.gemm, gemmForced := bc.gemmForced) == bc
    ensures SetsRest(false, false, bc, after)
  {
  }

  lemma PartSetsJust(part: string, bc: BinChoices)
    requires bc.Valid() && PartOk(part, true)
    ensures SetsJust([part], bc, TakeParts([part], bc))
  {
    hide GemmOk, SaysSk, ReadGemm, Find, TakeParts, NamesKey, NamesSk, GemmSet, IndexOf;
    if KeyOf(part) in GEMM_NAMES {
      GemmPartSetsJust(part, bc);
      return;
    }
    TakeOne(part, bc);
    NoGemmIsAttnOrLn();
    OnePart(part, "attn");
    OnePart(part, "ln");
    forall i | 0 <= i < GEMM_COUNT
      ensures !NamesKey([part], GEMM_NAMES[i]) && !NamesSk([part], GEMM_NAMES[i])
      ensures GemmSet(false, false, bc.gemm[i], bc.gemmForced[i], bc.gemm[i], bc.gemmForced[i])
    {
      OnePart(part, GEMM_NAMES[i]);
      assert GEMM_NAMES[i] in GEMM_NAMES;
      GemmStands(bc.gemm[i], bc.gemmForced[i]);
    }
    RestSet(KeyOf(part), ValueOf(part), bc);
  }

  lemma RestSet(key: string, v: string, bc: BinChoices)
    requires bc.Valid() && ValueOk(key, v) && key !in GEMM_NAMES
    ensures var after := ReadPart(key, v, bc).bc;
      SetsRest(key == "attn", key == "ln", bc, after) && after.gemm == bc.gemm && after.gemmForced == bc.gemmForced
  {
  }

  lemma SetsBoth(a: seq<string>, c: seq<string>, b0: BinChoices, b1: BinChoices, b2: BinChoices)
    requires b0.Valid() && b1.Valid() && b2.Valid()
    requires SetsJust(a, b0, b1) && SetsJust(c, b1, b2)
    ensures SetsJust(a + c, b0, b2)
  {
    hide Find, SaysSk, NamesKey, NamesSk, GemmSet, SetsRest;
    forall g | 0 <= g < GEMM_COUNT
      ensures GemmSet(NamesKey(a + c, GEMM_NAMES[g]), NamesSk(a + c, GEMM_NAMES[g]),
                      b0.gemm[g], b0.gemmForced[g], b2.gemm[g], b2.gemmForced[g])
    {
      var k := GEMM_NAMES[g];
      NamesBoth(a, c, k);
      GemmSetBoth(NamesKey(a, k), NamesSk(a, k), NamesKey(c, k), NamesSk(c, k), b0.gemm[g], b0.gemmForced[g],
                  b1.gemm[g], b1.gemmForced[g], b2.gemm[g], b2.gemmForced[g]);
    }
    NamesBoth(a, c, "attn");
    NamesBoth(a, c, "ln");
    RestBoth(NamesKey(a, "attn"), NamesKey(a, "ln"), NamesKey(c, "attn"), NamesKey(c, "ln"), b0, b1, b2);
  }

  lemma GemmSetBoth(n: bool, s: bool, n': bool, s': bool, g0: GemmChoice, f0: set<Knob>, g1: GemmChoice, f1: set<Knob>,
                    g2: GemmChoice, f2: set<Knob>)
    requires GemmSet(n, s, g0, f0, g1, f1) && GemmSet(n', s', g1, f1, g2, f2)
    ensures GemmSet(n || n', s || s', g0, f0, g2, f2)
  {
  }

  lemma RestBoth(a: bool, l: bool, a': bool, l': bool, b0: BinChoices, b1: BinChoices, b2: BinChoices)
    requires SetsRest(a, l, b0, b1) && SetsRest(a', l', b1, b2)
    ensures SetsRest(a || a', l || l', b0, b2)
  {
  }

  lemma NamesBoth(a: seq<string>, c: seq<string>, k: string)
    ensures NamesKey(a + c, k) <==> NamesKey(a, k) || NamesKey(c, k)
    ensures NamesSk(a + c, k) <==> NamesSk(a, k) || NamesSk(c, k)
  {
    assert forall p :: p in a + c <==> p in a || p in c;
  }

  lemma {:induction false} PartsSetJust(parts: seq<string>, bc: BinChoices)
    requires bc.Valid() && PartsOk(parts, true)
    ensures (KeysOf(parts, true); SetsJust(parts, bc, TakeParts(parts, bc)))
  {
    hide SetsJust, ReadPart, TakeParts, PartOk;
    KeysOf(parts, true);
    if parts == [] {
      TakeNothing(bc);
      NothingSet(bc);
    } else {
      var p, rest := parts[0], parts[1..];
      assert parts == [p] + rest && p in parts && p in [p];
      KeysOf(rest, true);
      PartSetsJust(p, bc);
      var next := TakeParts([p], bc);
      PartsSetJust(rest, next);
      TakeBoth([p], rest, bc);
      SetsBoth([p], rest, bc, next, TakeParts(rest, next));
    }
  }

  lemma NothingSet(bc: BinChoices)
    requires bc.Valid()
    ensures SetsJust([], bc, bc)
  {
  }

  lemma {:induction false} PartsForAreOk(items: seq<string>, bins: nat, b: nat)
    requires 1 <= bins <= BIN_COUNT && b < bins && AllOk(items, bins)
    ensures PartsOk(PartsFor(items, b), true)
  {
    hide PartOk, Find, Ended, StartsWith;
    if items != [] {
      assert items[0] in items;
      PartsForAreOk(items[1..], bins, b);
    }
  }

  /** An accepted line changes, in each bin, just the knobs its parts for the
      bin name, and forces exactly those; the pooling's just when an item
      names it; no bin the session lacks; and notes exactly the lacking bins
      that were named with parts. */
  lemma LineSetsJustWhatItNames(s: string, into: Choices)
    requires into.Valid() && Read(s, into).err.None?
    ensures var items := Ended(s, ';');
      var r := Read(s, into);
      && r.Valid() && r.into.bins == into.bins
      && (forall b :: 0 <= b < into.bins ==> SetsJust(PartsFor(items, b), into.bin[b], r.into.bin[b]))
      && (forall b :: into.bins <= b < BIN_COUNT ==> r.into.bin[b] == into.bin[b])
      && (if PoolOf(items).Some? then r.into.poolForced == {KnobPool}
          else r.into.pool == into.pool && r.into.poolForced == into.poolForced)
      && r.absent == Missing(items, into.bins)
  {
    hide SetsJust, TakeParts, Missing, PartsFor, PoolOf;
    LineMeans(s, into);
    var items := Ended(s, ';');
    forall b | 0 <= b < into.bins
      ensures SetsJust(PartsFor(items, b), into.bin[b], Read(s, into).into.bin[b])
    {
      PartsForHaveKeys(items, into.bins, b);
      PartsForAreOk(items, into.bins, b);
      PartsSetJust(PartsFor(items, b), into.bin[b]);
    }
  }

  // ---- "all:" ----

  /** The body under each bin's own name, for the bins from b on. */
  function EachFrom(body: string, b: nat, bins: nat): string
    requires b <= bins <= BIN_COUNT
    decreases bins - b
  {
    if b == bins then "" else BIN_NAMES[b] + ":" + body + ";" + EachFrom(body, b + 1, bins)
  }

  /** The items of EachFrom. */
  function EachItems(body: string, b: nat, bins: nat): seq<string>
    requires b <= bins <= BIN_COUNT
    decreases bins - b
  {
    if b == bins then [] else [BIN_NAMES[b] + ":" + body] + EachItems(body, b + 1, bins)
  }

  lemma {:induction false} EachIsCut(body: string, b: nat, bins: nat)
    requires b <= bins <= BIN_COUNT && ';' !in body
    ensures Ended(EachFrom(body, b, bins), ';') == EachItems(body, b, bins)
    decreases bins - b
  {
    hide Find, Ended;
    if b < bins {
      BinNamesArePlain();
      PlainWord(BIN_NAMES, b);
      EndedCons(BIN_NAMES[b] + ":" + body, ';', EachFrom(body, b + 1, bins));
      EachIsCut(body, b + 1, bins);
    } else {
      EndedNothing();
    }
  }

  lemma EndedNothing()
    ensures Ended("", ';') == []
  {
  }

  lemma BinItem(body: string, b: nat)
    requires b < BIN_COUNT
    ensures var item := BIN_NAMES[b] + ":" + body;
      NamesBins(item) && ':' in item && NameOf(item) == BIN_NAMES[b] && PartsOf(item) == Ended(body, ',')
  {
    hide Ended, IndexOf;
    BinItemOpens(b, body);
    HasColon(BIN_NAMES[b] + ":" + body);
  }

  lemma AllItem(body: string)
    ensures var item := "all:" + body;
      NamesBins(item) && ':' in item && NameOf(item) == "all" && PartsOf(item) == Ended(body, ',')
  {
    hide Ended;
    var item := "all:" + body;
    assert item == "all" + ":" + body;
    FindIn("all", ':', body);
    HasColon(item);
    assert |item| >= 7 ==> item[..7][0] == 'a';
    assert |item| >= 5 ==> item[..5][0] == 'a';
    assert "forced="[0] == 'f' && "pool="[0] == 'p';
  }

  /** A bin's own item in the session. */
  lemma BinItemOk(body: string, b: nat, bins: nat)
    requires b < bins <= BIN_COUNT
    ensures var item := BIN_NAMES[b] + ":" + body;
      && (ItemOk(item, bins) <==> PartsOk(Ended(body, ','), true))
      && !NamesPool(item) && NameOf(item) == BIN_NAMES[b]
      && forall k :: 0 <= k < BIN_COUNT ==>
        (if Targets(item, k) then PartsOf(item) else []) == if k == b then Ended(body, ',') else []
  {
    hide Ended, Find, PartOk, StartsWith;
    var item := BIN_NAMES[b] + ":" + body;
    BinItem(body, b);
    assert InSession(item, bins);
    assert BIN_NAMES[b] in BIN_NAMES;
    OtherNamesAreApart();
    BinIsNotAll(b);
  }

  lemma {:induction false} EachOk(body: string, b: nat, bins: nat)
    requires b <= bins <= BIN_COUNT && 1 <= bins
    ensures AllOk(EachItems(body, b, bins), bins) <==> b == bins || PartsOk(Ended(body, ','), true)
    ensures forall i :: i in EachItems(body, b, bins) ==> exists k :: 0 <= k < bins && NameOf(i) == BIN_NAMES[k]
    decreases bins - b
  {
    hide Ended, PartsOk, ItemOk, NameOf;
    if b < bins {
      var item, rest := BIN_NAMES[b] + ":" + body, EachItems(body, b + 1, bins);
      BinItemOk(body, b, bins);
      EachOk(body, b + 1, bins);
      assert forall i :: i in [item] + rest <==> i == item || i in rest;
    }
  }

  lemma {:induction false} EachHas(body: string, b: nat, bins: nat)
    requires b <= bins <= BIN_COUNT
    ensures PoolOf(EachItems(body, b, bins)) == None
    ensures forall k :: 0 <= k < BIN_COUNT ==>
      PartsFor(EachItems(body, b, bins), k) == if b <= k < bins then Ended(body, ',') else []
    decreases bins - b
  {
    hide Ended, Targets, PartsOf, NamesPool;
    if b < bins {
      var item, rest := BIN_NAMES[b] + ":" + body, EachItems(body, b + 1, bins);
      BinItemOk(body, b, bins);
      EachHas(body, b + 1, bins);
      assert ([item] + rest)[1..] == rest;
    }
  }

  lemma BinIsNotAll(b: nat)
    requires b < BIN_COUNT
    ensures BIN_NAMES[b] != "all"
  {
    assert "all"[0] == 'a';
  }

  /** "all:" says what naming each bin of the session says: one is accepted
      when the other is, and they leave the same choices. */
  lemma AllNamesEachBin(body: string, into: Choices)
    requires into.Valid() && ';' !in body
    ensures var one, each := Read("all:" + body, into), Read(EachFrom(body, 0, into.bins), into);
      && (one.err.None? <==> each.err.None?)
      && (one.err.None? ==> one == each)
  {
    hide Ended, Find, PartOk, StartsWith, TakeParts, Missing, PartsFor, PoolOf, EachItems, EachFrom;
    var bins := into.bins;
    var all := "all:" + body;
    var items := EachItems(body, 0, bins);
    EachIsCut(body, 0, bins);
    EndedOne(all, ';');
    LineMeans(all, into);
    LineMeans(EachFrom(body, 0, bins), into);
    AllItem(body);
    EachOk(body, 0, bins);
    EachHas(body, 0, bins);
    AllIsOk(body, bins);
    if AllOk([all], bins) {
      var st := State(into, {}, None);
      forall b | 0 <= b < bins
        ensures PartsFor([all], b) == PartsFor(items, b)
      {
        OneItem(all, b);
      }
      OneItem(all, 0);
      assert Meaning([all], st).into.bin == Meaning(items, st).into.bin;
      NoneMissing([all], bins);
      NoneMissing(items, bins);
    }
  }

  lemma AllIsOk(body: string, bins: nat)
    requires 1 <= bins <= BIN_COUNT
    ensures AllOk(["all:" + body], bins) <==> PartsOk(Ended(body, ','), true)
  {
    hide Ended, Find, PartOk, StartsWith;
    AllItem(body);
    assert "all:" + body in ["all:" + body];
  }

  lemma NoneMissing(items: seq<string>, bins: nat)
    requires 1 <= bins <= BIN_COUNT
    requires forall i :: i in items ==> NameOf(i) == "all" || exists k :: 0 <= k < bins && NameOf(i) == BIN_NAMES[k]
    ensures Missing(items, bins) == {}
  {
    hide Find;
    OtherNamesAreApart();
    forall b: nat | bins <= b < BIN_COUNT
      ensures forall i :: 0 <= i < |items| ==> NameOf(items[i]) != BIN_NAMES[b]
    {
      BinIsNotAll(b);
      assert forall i :: 0 <= i < |items| ==> items[i] in items;
    }
  }
}
