/** The reference file of bundle/src/static_reference.rs (safetensors_file) and
    its reader, bench/reference/hailort_reference.py (tensor, prepare). */
module ReferenceFile {
  import opened Arith

  /** A byte, by its value modulo 256. */
  type Byte = int

  const BYTES4 := 0x1_0000_0000
  const HALF4 := 0x8000_0000

  /** A 32-bit word, of an i32 or of an f32's bits. */
  type Word = int

  predicate IsWord(w: int) { 0 <= w < BYTES4 }

  type I32 = int

  predicate IsI32(v: int) { -HALF4 <= v < HALF4 }

  // ---- Words and bytes, least significant first ----

  function LittleEndian(v: int, n: nat): (s: seq<Byte>)
    ensures |s| == n
    decreases n
  {
    if n == 0 then [] else [v % 256] + LittleEndian(v / 256, n - 1)
  }

  function FromLittleEndian(s: seq<Byte>): nat {
    if s == [] then 0 else s[0] % 256 + 256 * FromLittleEndian(s[1..])
  }

  function Power256(n: nat): nat { if n == 0 then 1 else 256 * Power256(n - 1) }

  lemma {:induction false} LittleEndianReads(v: nat, n: nat)
    requires v < Power256(n)
    ensures FromLittleEndian(LittleEndian(v, n)) == v
  {
    if n > 0 {
      LittleEndianReads(v / 256, n - 1);
    }
  }

  /** An i32 as its two's complement word. */
  function ToWord(v: I32): Word { if v < 0 then v + BYTES4 else v }

  function FromWord(w: Word): I32 { if w >= HALF4 then w - BYTES4 else w }

  function Bytes(words: seq<Word>): (s: seq<Byte>)
    ensures |s| == 4 * |words|
  {
    if words == [] then [] else Bytes(words[..|words| - 1]) + LittleEndian(words[|words| - 1], 4)
  }

  /** The words of a run of bytes: iter_unpack("<i") but for the sign. */
  function Words(s: seq<Byte>): (r: seq<Word>)
    ensures |r| == |s| / 4
  {
    if |s| < 4 then []
    else [FourBytes(s[..4])] + Words(s[4..])
  }

  function FourBytes(s: seq<Byte>): Word
    requires |s| == 4
  {
    s[0] % 256 + 256 * (s[1] % 256 + 256 * (s[2] % 256 + 256 * (s[3] % 256)))
  }

  lemma FourBytesRead(w: Word)
    requires IsWord(w)
    ensures FourBytes(LittleEndian(w, 4)) == w
  {
    var s := LittleEndian(w, 4);
    assert s == [w % 256] + LittleEndian(w / 256, 3);
    assert LittleEndian(w / 256, 3) == [w / 256 % 256] + LittleEndian(w / 256 / 256, 2);
    assert LittleEndian(w / 256 / 256, 2) == [w / 256 / 256 % 256] + LittleEndian(w / 256 / 256 / 256, 1);
    assert LittleEndian(w / 256 / 256 / 256, 1) == [w / 256 / 256 / 256 % 256];
  }

  lemma {:induction false} BytesOfBoth(a: seq<Word>, b: seq<Word>)
    ensures Bytes(a + b) == Bytes(a) + Bytes(b)
  {
    hide LittleEndian;
    if b == [] {
      assert a + b == a;
    } else {
      assert (a + b)[..|a + b| - 1] == a + b[..|b| - 1];
      BytesOfBoth(a, b[..|b| - 1]);
    }
  }

  lemma {:induction false} WordsOfBytes(words: seq<Word>)
    requires forall k :: 0 <= k < |words| ==> IsWord(words[k])
    ensures Words(Bytes(words)) == words
  {
    if words != [] {
      assert words == [words[0]] + words[1..];
      BytesOfBoth([words[0]], words[1..]);
      assert [words[0]][..0] == [];
      assert Bytes([words[0]]) == LittleEndian(words[0], 4);
      FourBytesRead(words[0]);
      WordsOfBytes(words[1..]);
      assert Bytes(words)[..4] == LittleEndian(words[0], 4) && Bytes(words)[4..] == Bytes(words[1..]);
    }
  }

  /** A run of whole words, cut out of their bytes. */
  lemma BytesOfRun(words: seq<Word>, i: nat, j: nat, a: nat, b: nat)
    requires i <= j <= |words| && a == 4 * i && b == 4 * j
    ensures b <= |Bytes(words)|
    ensures Bytes(words)[a..b] == Bytes(words[i..j])
  {
    hide Bytes, LittleEndian;
    assert words == words[..i] + words[i..j] + words[j..];
    BytesOfBoth(words[..i] + words[i..j], words[j..]);
    BytesOfBoth(words[..i], words[i..j]);
    Middle(Bytes(words[..i]), Bytes(words[i..j]), Bytes(words[j..]));
  }

  lemma Middle<T>(a: seq<T>, b: seq<T>, c: seq<T>)
    ensures (a + b + c)[|a|..|a| + |b|] == b
  {
  }

  // ---- The file ----

  /** A tensor's place: its type, its shape and its bytes of the payload. */
  datatype Entry = Entry(floats: bool, shape: seq<nat>, start: nat, end: nat)

  datatype Header = Header(ids: Entry, lengths: Entry, embeddings: Entry)

  datatype Option<T> = None | Some(value: T)

  /** The JSON library: text of a header, and the header of a text. */
  datatype Json = Json(write: Header -> seq<Byte>, read: seq<Byte> -> Option<Header>)

  const SPACE: Byte := 32

  function Spaces(n: nat): (s: seq<Byte>)
    ensures |s| == n
  {
    seq(n, _ => SPACE)
  }

  /** A header is read back from its text, spaces after it or not. */
  ghost predicate Faithful(json: Json) {
    forall h, n: nat :: json.read(Spaced(json.write(h), n)) == Some(h)
  }

  function Spaced(text: seq<Byte>, n: nat): seq<Byte> { text + Spaces(n) }

  /** The reference: each text's ids and its vector. */
  datatype Rows = Rows(ids: seq<seq<I32>>, vectors: seq<seq<Word>>)

  function Widest(ids: seq<seq<I32>>): (w: nat)
    ensures forall r :: r in ids ==> |r| <= w
    ensures w == 0 || exists r :: r in ids && |r| == w
  {
    if ids == [] then 0
    else
      var w, n := Widest(ids[..|ids| - 1]), |ids[|ids| - 1]|;
      assert forall r :: r in ids ==> r in ids[..|ids| - 1] || r == ids[|ids| - 1];
      if n > w then n else w
  }

  /** The table is at least one wide, also for no rows or empty ones. */
  function Width(ids: seq<seq<I32>>): (w: nat)
    ensures w > 0 && forall r :: r in ids ==> |r| <= w
  {
    if Widest(ids) == 0 then 1 else Widest(ids)
  }

  function Padded(row: seq<I32>, width: nat, pad: I32): (r: seq<Word>)
    ensures |r| == width
  {
    seq(width, p requires 0 <= p < width => PaddedWord(row, p, pad))
  }

  function PaddedWord(row: seq<I32>, p: nat, pad: I32): Word { ToWord(if p < |row| then row[p] else pad) }

  function PaddedAll(ids: seq<seq<I32>>, width: nat, pad: I32): (r: seq<Word>)
    ensures |r| == |ids| * width
  {
    if ids == [] then []
    else
      Distribute(|ids| - 1, width);
      PaddedAll(ids[..|ids| - 1], width, pad) + Padded(ids[|ids| - 1], width, pad)
  }

  /** r.len() as i32. */
  function LengthWord(n: nat): Word { n % BYTES4 }

  function Lengths(ids: seq<seq<I32>>): (r: seq<Word>)
    ensures |r| == |ids|
  {
    seq(|ids|, i requires 0 <= i < |ids| => LengthWord(|ids[i]|))
  }

  function Flatten(v: seq<seq<Word>>): seq<Word> {
    if v == [] then [] else Flatten(v[..|v| - 1]) + v[|v| - 1]
  }

  function Payload(rows: Rows, pad: I32): seq<Byte> {
    Bytes(PaddedAll(rows.ids, Width(rows.ids), pad)) + Bytes(Lengths(rows.ids)) + Bytes(Flatten(rows.vectors))
  }

  function HeaderOf(rows: Rows, pad: I32, dim: nat): Header {
    var n, width := |rows.ids|, Width(rows.ids);
    var a := |Bytes(PaddedAll(rows.ids, width, pad))|;
    var b := a + |Bytes(Lengths(rows.ids))|;
    Header(Entry(false, [n, width], 0, a), Entry(false, [n], a, b),
           Entry(true, [n, dim], b, b + |Bytes(Flatten(rows.vectors))|))
  }

  function Missing(n: nat): (k: nat)
    ensures k < 8 && (n + k) % 8 == 0
  {
    (8 - n % 8) % 8
  }

  /** The text of the header, spaces to a whole number of eight bytes. */
  function Text(rows: Rows, pad: I32, dim: nat, json: Json): seq<Byte> {
    var h := json.write(HeaderOf(rows, pad, dim));
    Spaced(h, Missing(|h|))
  }

  /** The file: the text's length, the text, and the payload. */
  function FileOf(rows: Rows, pad: I32, dim: nat, json: Json): seq<Byte> {
    LittleEndian(|Text(rows, pad, dim, json)|, 8) + Text(rows, pad, dim, json) + Payload(rows, pad)
  }

  method SafetensorsFile(rows: Rows, pad: I32, dim: nat, json: Json) returns (out: seq<Byte>)
    ensures out == FileOf(rows, pad, dim, json)
  {
    hide Bytes, PaddedAll, Lengths, Flatten, LittleEndian, Width, Widest, Missing;
    var n := |rows.ids|;
    var width := WidthOf(rows.ids);
    var ids := IdBytes(rows.ids, width, pad);
    var lengths := LengthBytes(rows.ids);
    var emb := VectorBytes(rows.vectors);
    var a, b := |ids|, |ids| + |lengths|;
    var header := Header(Entry(false, [n, width], 0, a), Entry(false, [n], a, b), Entry(true, [n, dim], b, b + |emb|));
    var h := PadText(json.write(header));
    out := LittleEndian(|h|, 8);
    out := out + h;
    out := out + ids;
    out := out + lengths;
    out := out + emb;
  }

  method WidthOf(ids: seq<seq<I32>>) returns (width: nat)
    ensures width == Width(ids)
  {
    width := 0;
    for i := 0 to |ids|
      invariant width == Widest(ids[..i])
    {
      assert ids[..i + 1][..i] == ids[..i];
      if |ids[i]| > width {
        width := |ids[i]|;
      }
    }
    assert ids[..|ids|] == ids;
    if width == 0 {
      width := 1;
    }
  }

  method PadText(text: seq<Byte>) returns (h: seq<Byte>)
    ensures h == Spaced(text, Missing(|text|))
  {
    h := text;
    assert text + Spaces(0) == text;
    while |h| % 8 != 0
      invariant |text| <= |h| <= |text| + Missing(|text|) && h == text + Spaces(|h| - |text|)
      decreases |text| + 8 - |h|
    {
      assert Spaces(|h| - |text|) + [SPACE] == Spaces(|h| + 1 - |text|);
      h := h + [SPACE];
    }
  }

  method IdBytes(ids: seq<seq<I32>>, width: nat, pad: I32) returns (out: seq<Byte>)
    ensures out == Bytes(PaddedAll(ids, width, pad))
  {
    hide LittleEndian, Padded;
    out := [];
    for i := 0 to |ids|
      invariant out == Bytes(PaddedAll(ids[..i], width, pad))
    {
      var row := RowBytes(ids[i], width, pad);
      out := out + row;
      BytesOfBoth(PaddedAll(ids[..i], width, pad), Padded(ids[i], width, pad));
      assert ids[..i + 1][..i] == ids[..i];
    }
    assert ids[..|ids|] == ids;
  }

  method RowBytes(row: seq<I32>, width: nat, pad: I32) returns (out: seq<Byte>)
    ensures out == Bytes(Padded(row, width, pad))
  {
    hide LittleEndian;
    out := [];
    ghost var words := Padded(row, width, pad);
    for p := 0 to width
      invariant out == Bytes(words[..p])
    {
      assert words[..p + 1][..p] == words[..p];
      out := out + LittleEndian(PaddedWord(row, p, pad), 4);
    }
    assert words[..width] == words;
  }

  method LengthBytes(ids: seq<seq<I32>>) returns (out: seq<Byte>)
    ensures out == Bytes(Lengths(ids))
  {
    hide LittleEndian;
    out := [];
    ghost var words := Lengths(ids);
    for i := 0 to |ids|
      invariant out == Bytes(words[..i])
    {
      assert words[..i + 1][..i] == words[..i];
      out := out + LittleEndian(LengthWord(|ids[i]|), 4);
    }
    assert words[..|ids|] == words;
  }

  method VectorBytes(v: seq<seq<Word>>) returns (out: seq<Byte>)
    ensures out == Bytes(Flatten(v))
  {
    hide LittleEndian;
    out := [];
    for i := 0 to |v|
      invariant out == Bytes(Flatten(v[..i]))
    {
      ghost var done := out;
      for p := 0 to |v[i]|
        invariant out == done + Bytes(v[i][..p])
      {
        assert v[i][..p + 1][..p] == v[i][..p];
        out := out + LittleEndian(v[i][p], 4);
      }
      assert v[i][..|v[i]|] == v[i] && v[..i + 1][..i] == v[..i];
      BytesOfBoth(Flatten(v[..i]), v[i]);
    }
    assert v[..|v|] == v;
  }

  // ---- The reader ----

  /** data[a:b], as Python cuts it. */
  function Cut(data: seq<Byte>, a: nat, b: nat): seq<Byte> {
    var hi := if b < |data| then b else |data|;
    if a <= hi then data[a..hi] else []
  }

  function Product(shape: seq<nat>): nat { if shape == [] then 1 else shape[0] * Product(shape[1..]) }

  /** The shape and the bytes of a tensor, unless its entry is not what it
      should be. */
  function Tensor(data: seq<Byte>, name: Header -> Entry, floats: bool, json: Json): Option<(seq<nat>, seq<Byte>)> {
    if |data| < 8 then None
    else
      var length := FromLittleEndian(data[..8]);
      var header := json.read(Cut(data, 8, 8 + length));
      if header.None? || name(header.value).floats != floats then None
      else
        var entry := name(header.value);
        var result := Cut(data, 8 + length + entry.start, 8 + length + entry.end);
        if entry.end < entry.start || |result| != Product(entry.shape) * 4 then None
        else Some((entry.shape, result))
  }

  /** Row `case` of the ids table, n of its values. */
  function RowOf(ids: seq<Byte>, width: nat, row: nat, n: nat): seq<I32> {
    RowAt(ids, row * width * 4, n * 4)
  }

  function RowAt(ids: seq<Byte>, start: nat, n: nat): seq<I32> {
    var words := Words(Cut(ids, start, start + n));
    seq(|words|, k requires 0 <= k < |words| => FromWord(words[k]))
  }

  // ---- What is written is read ----

  /** The vectors are one a row, dim wide. */
  predicate Vectors(rows: Rows, dim: nat) {
    |rows.vectors| == |rows.ids| && forall v :: v in rows.vectors ==> |v| == dim
  }

  lemma {:induction false} FlattenedSize(v: seq<seq<Word>>, dim: nat)
    requires forall x :: x in v ==> |x| == dim
    ensures |Flatten(v)| == |v| * dim
  {
    if v != [] {
      var m := |v| - 1;
      assert v[m] in v;
      assert forall x :: x in v[..m] ==> x in v;
      FlattenedSize(v[..m], dim);
      Distribute(m, dim);
    }
  }

  /** The three tensors follow one another from the payload's first byte to its
      last, each as long as its shape says, and the payload starts at a whole
      number of eight bytes. */
  lemma TheTensorsPartitionThePayload(rows: Rows, pad: I32, dim: nat, json: Json)
    requires Vectors(rows, dim)
    ensures var h := HeaderOf(rows, pad, dim);
      && h.ids.start == 0 && h.ids.end == h.lengths.start && h.lengths.end == h.embeddings.start
      && h.embeddings.end == |Payload(rows, pad)|
      && h.ids.end - h.ids.start == Product(h.ids.shape) * 4
      && h.lengths.end - h.lengths.start == Product(h.lengths.shape) * 4
      && h.embeddings.end - h.embeddings.start == Product(h.embeddings.shape) * 4
    ensures (8 + |Text(rows, pad, dim, json)|) % 8 == 0
  {
    hide Bytes, PaddedAll, Lengths, Flatten, Width, Product, Missing;
    FlattenedSize(rows.vectors, dim);
    ProductOfTwo(|rows.ids|, Width(rows.ids));
    ProductOfTwo(|rows.ids|, dim);
    ProductOfOne(|rows.ids|);
  }

  lemma ProductOfTwo(a: nat, b: nat)
    ensures Product([a, b]) == a * b
  {
    assert [a, b][1..] == [b] && [b][1..] == [];
    assert Product([b]) == b;
  }

  lemma ProductOfOne(a: nat)
    ensures Product([a]) == a
  {
    assert [a][1..] == [];
  }

  /** Cutting a tensor out of the file is cutting it out of the payload. */
  lemma CutOfFile(rows: Rows, pad: I32, dim: nat, json: Json, a: nat, b: nat)
    requires a <= b <= |Payload(rows, pad)|
    ensures Cut(FileOf(rows, pad, dim, json),
                8 + |Text(rows, pad, dim, json)| + a, 8 + |Text(rows, pad, dim, json)| + b) ==
            Payload(rows, pad)[a..b]
  {
    hide LittleEndian, Text, Payload;
    var x, t, p := LittleEndian(|Text(rows, pad, dim, json)|, 8), Text(rows, pad, dim, json), Payload(rows, pad);
    assert (x + t + p)[8 + |t| + a..8 + |t| + b] == p[a..b];
  }

  lemma HeaderIsRead(rows: Rows, pad: I32, dim: nat, json: Json)
    requires Faithful(json) && |Text(rows, pad, dim, json)| < Power256(8)
    ensures var data := FileOf(rows, pad, dim, json);
      && |data| >= 8 && FromLittleEndian(data[..8]) == |Text(rows, pad, dim, json)|
      && json.read(Cut(data, 8, 8 + |Text(rows, pad, dim, json)|)) == Some(HeaderOf(rows, pad, dim))
  {
    hide LittleEndian, FromLittleEndian, Payload, HeaderOf, Power256;
    var x, t, p := LittleEndian(|Text(rows, pad, dim, json)|, 8), Text(rows, pad, dim, json), Payload(rows, pad);
    LittleEndianReads(|t|, 8);
    assert (x + t + p)[..8] == x && (x + t + p)[8..8 + |t|] == t;
  }

  lemma Parts<T>(a: seq<T>, b: seq<T>, c: seq<T>)
    ensures (a + b + c)[0..|a|] == a && (a + b + c)[|a|..|a| + |b|] == b && (a + b + c)[|a| + |b|..|a| + |b| + |c|] == c
  {
  }

  /** Each tensor is found: the reader refuses none of the three. */
  lemma EveryTensorIsFound(rows: Rows, pad: I32, dim: nat, json: Json)
    requires Faithful(json) && |Text(rows, pad, dim, json)| < Power256(8) && Vectors(rows, dim)
    ensures var data, n := FileOf(rows, pad, dim, json), |rows.ids|;
      && Tensor(data, (h: Header) => h.ids, false, json) ==
         Some(([n, Width(rows.ids)], Bytes(PaddedAll(rows.ids, Width(rows.ids), pad))))
      && Tensor(data, (h: Header) => h.lengths, false, json) == Some(([n], Bytes(Lengths(rows.ids))))
      && Tensor(data, (h: Header) => h.embeddings, true, json) == Some(([n, dim], Bytes(Flatten(rows.vectors))))
  {
    hide FileOf, Text, FromLittleEndian, Power256, Faithful, Cut, Bytes, PaddedAll, Lengths, Flatten, Product;
    HeaderIsRead(rows, pad, dim, json);
    TheTensorsPartitionThePayload(rows, pad, dim, json);
    var h, p := HeaderOf(rows, pad, dim), Payload(rows, pad);
    CutOfFile(rows, pad, dim, json, h.ids.start, h.ids.end);
    CutOfFile(rows, pad, dim, json, h.lengths.start, h.lengths.end);
    CutOfFile(rows, pad, dim, json, h.embeddings.start, h.embeddings.end);
    var a, b, c := Bytes(PaddedAll(rows.ids, Width(rows.ids), pad)), Bytes(Lengths(rows.ids)),
      Bytes(Flatten(rows.vectors));
    Parts(a, b, c);
  }

  lemma {:induction false} PaddedRow(ids: seq<seq<I32>>, width: nat, pad: I32, i: nat)
    requires i < |ids|
    ensures i * width + width <= |ids| * width
    ensures PaddedAll(ids, width, pad)[i * width..i * width + width] == Padded(ids[i], width, pad)
  {
    var m := |ids| - 1;
    Distribute(m, width);
    Distribute(i, width);
    if i < m {
      MulLe(i + 1, m, width);
      PaddedRow(ids[..m], width, pad, i);
      InFirst(PaddedAll(ids[..m], width, pad), Padded(ids[m], width, pad), i * width, width);
    } else {
      InSecond(PaddedAll(ids[..m], width, pad), Padded(ids[m], width, pad));
    }
  }

  lemma InFirst<T>(a: seq<T>, b: seq<T>, x: nat, n: nat)
    requires x + n <= |a|
    ensures (a + b)[x..x + n] == a[x..x + n]
  {
  }

  lemma InSecond<T>(a: seq<T>, b: seq<T>)
    ensures (a + b)[|a|..|a| + |b|] == b
  {
  }

  lemma WordsReadBack(v: I32)
    requires IsI32(v)
    ensures IsWord(ToWord(v))
    ensures FromWord(ToWord(v)) == v
  {
  }

  /** Row i read at its length is row i: for any rows, none or empty ones too. */
  lemma EveryRowReadsBack(rows: Rows, pad: I32, i: nat)
    requires i < |rows.ids| && forall k :: 0 <= k < |rows.ids[i]| ==> IsI32(rows.ids[i][k])
    ensures var ids, width := rows.ids, Width(rows.ids);
      RowOf(Bytes(PaddedAll(ids, width, pad)), width, i, |ids[i]|) == ids[i]
  {
    hide Bytes, PaddedAll, Width, Padded, Words, FromWord, LittleEndian;
    var ids, width := rows.ids, Width(rows.ids);
    assert ids[i] in ids;
    PaddedRow(ids, width, pad, i);
    RowReadsAt(PaddedAll(ids, width, pad), i * width, width, ids[i], pad, i * width * 4, |ids[i]| * 4);
  }

  lemma RowReadsAt(all: seq<Word>, at: nat, width: nat, row: seq<I32>, pad: I32, start: nat, n: nat)
    requires at + width <= |all| && all[at..at + width] == Padded(row, width, pad) && |row| <= width
    requires start == 4 * at && n == 4 * |row| && forall k :: 0 <= k < |row| ==> IsI32(row[k])
    ensures RowAt(Bytes(all), start, n) == row
  {
    hide Bytes, Padded, Words, FromWord, Cut, LittleEndian, RowAt;
    RunOfPadded(all, at, width, |row|, row, pad);
    RunReadsBack(all[at..at + |row|], row);
    CutOfRun(all, at, at + |row|, start, start + n);
    RowFromWords(Bytes(all), start, n, row);
  }

  lemma CutOfRun(words: seq<Word>, i: nat, j: nat, a: nat, b: nat)
    requires i <= j <= |words| && a == 4 * i && b == 4 * j
    ensures Cut(Bytes(words), a, b) == Bytes(words[i..j])
  {
    hide Bytes, LittleEndian, Cut;
    BytesOfRun(words, i, j, a, b);
    CutInside(Bytes(words), a, b);
  }

  lemma CutInside(s: seq<Byte>, a: nat, b: nat)
    requires a <= b <= |s|
    ensures Cut(s, a, b) == s[a..b]
  {
  }

  lemma RowFromWords(s: seq<Byte>, start: nat, n: nat, row: seq<I32>)
    requires var words := Words(Cut(s, start, start + n));
      |words| == |row| && forall k :: 0 <= k < |row| ==> FromWord(words[k]) == row[k]
    ensures RowAt(s, start, n) == row
  {
    hide Words, Cut, FromWord;
  }

  lemma RunReadsBack(run: seq<Word>, row: seq<I32>)
    requires |run| == |row|
    requires forall k :: 0 <= k < |row| ==> IsI32(row[k]) && run[k] == ToWord(row[k])
    ensures |Words(Bytes(run))| == |row| && forall k :: 0 <= k < |row| ==> FromWord(Words(Bytes(run))[k]) == row[k]
  {
    hide Bytes, Words, ToWord, FromWord, LittleEndian;
    forall k | 0 <= k < |row|
      ensures IsWord(run[k]) && FromWord(run[k]) == row[k]
    {
      WordsReadBack(row[k]);
    }
    WordsOfBytes(run);
  }

  lemma RunOfPadded(all: seq<Word>, at: nat, width: nat, n: nat, row: seq<I32>, pad: I32)
    requires at + width <= |all| && all[at..at + width] == Padded(row, width, pad) && n == |row| <= width
    ensures forall k :: 0 <= k < n ==> all[at..at + n][k] == ToWord(row[k])
  {
    forall k | 0 <= k < n
      ensures all[at..at + n][k] == ToWord(row[k])
    {
      assert all[at..at + width][k] == Padded(row, width, pad)[k];
    }
  }

  /** Its length is there to read it at, while it fits an i32: past that the
      length wraps. */
  lemma EveryLengthReadsBack(rows: Rows, i: nat)
    requires i < |rows.ids|
    ensures var words := Words(Bytes(Lengths(rows.ids)));
      i < |words| && (FromWord(words[i]) == |rows.ids[i]| <==> |rows.ids[i]| < HALF4)
  {
    hide Words, Bytes;
    WordsOfBytes(Lengths(rows.ids));
  }

  /** Writing then reading: row i of the file, at the length the file gives it,
      is the row written. */
  lemma WhatIsWrittenIsRead(rows: Rows, pad: I32, dim: nat, json: Json, i: nat)
    requires Faithful(json) && |Text(rows, pad, dim, json)| < Power256(8) && Vectors(rows, dim)
    requires i < |rows.ids| && |rows.ids[i]| < HALF4 && forall k :: 0 <= k < |rows.ids[i]| ==> IsI32(rows.ids[i][k])
    ensures var data := FileOf(rows, pad, dim, json);
      var ids, lengths := Tensor(data, (h: Header) => h.ids, false, json),
        Tensor(data, (h: Header) => h.lengths, false, json);
      && ids.Some? && lengths.Some? && |ids.value.0| == 2 && i < |Words(lengths.value.1)|
      && var n := FromWord(Words(lengths.value.1)[i]);
         n >= 0 && RowOf(ids.value.1, ids.value.0[1], i, n) == rows.ids[i]
  {
    hide Bytes, PaddedAll, Lengths, Flatten, Words, FromWord, RowOf, Tensor, FileOf, Text, Faithful, Power256, Width;
    EveryTensorIsFound(rows, pad, dim, json);
    EveryRowReadsBack(rows, pad, i);
    EveryLengthReadsBack(rows, i);
  }

  // ---- The bytes spelt out ----

  /** Byte j of a number is its digit j in base 256, the least first. */
  lemma {:induction false} AByteHolds(v: nat, n: nat, j: nat)
    requires j < n
    ensures Power256(j) > 0 && LittleEndian(v, n)[j] == v / Power256(j) % 256
  {
    if j > 0 {
      AByteHolds(v / 256, n - 1, j - 1);
      DividedTwice(v, Power256(j - 1));
    }
  }

  lemma DividedTwice(v: nat, p: nat)
    requires p > 0
    ensures v / 256 / p == v / (256 * p)
  {
    var a := v / 256;
    var q, r := a / p, a % p;
    Distribute(q, p);
    assert v == 256 * (q * p + r) + v % 256;
    assert 256 * (q * p + r) == q * (256 * p) + 256 * r;
    DivModUnique(q, 256 * r + v % 256, 256 * p);
  }

  /** Word k's four bytes. */
  lemma AWordHolds(words: seq<Word>, k: nat)
    requires k < |words|
    ensures Bytes(words)[4 * k..4 * k + 4] == LittleEndian(words[k], 4)
  {
    hide LittleEndian;
    BytesOfRun(words, k, k + 1, 4 * k, 4 * k + 4);
    assert words[k..k + 1] == [words[k]] && [words[k]][..0] == [];
    assert Bytes([words[k]]) == Bytes([]) + LittleEndian(words[k], 4);
  }

  /** Entry (i, p) of the table of ids: the row's id there, or the padding, as
      a two's complement word. */
  lemma AnIdHolds(ids: seq<seq<I32>>, width: nat, pad: I32, i: nat, p: nat)
    requires i < |ids| && p < width
    ensures 0 <= i * width + p < |ids| * width
    ensures var v := if p < |ids[i]| then ids[i][p] else pad;
      PaddedAll(ids, width, pad)[i * width + p] == if v < 0 then v + 0x1_0000_0000 else v
  {
    hide PaddedAll;
    PaddedRow(ids, width, pad, i);
    Distribute(i, width);
    MulLe(0, i, width);
    assert PaddedAll(ids, width, pad)[i * width + p] == PaddedAll(ids, width, pad)[i * width..i * width + width][p];
  }

  /** The table is as wide as the longest row, and one wide at least. */
  lemma TheWidth(ids: seq<seq<I32>>)
    ensures Width(ids) == 1 || exists r :: r in ids && |r| == Width(ids)
    ensures (forall r :: r in ids ==> r == []) ==> Width(ids) == 1
  {
  }

  /** Value h of vector i. */
  lemma {:induction false} AValueHolds(v: seq<seq<Word>>, dim: nat, i: nat, h: nat)
    requires (forall x :: x in v ==> |x| == dim) && i < |v| && h < dim
    ensures |v[i]| == dim && 0 <= i * dim + h < |Flatten(v)|
    ensures Flatten(v)[i * dim + h] == v[i][h]
  {
    var m := |v| - 1;
    assert v[i] in v && v[m] in v;
    FlattenedSize(v, dim);
    FlattenedSize(v[..m], dim);
    Distribute(i, dim);
    MulLe(i + 1, |v|, dim);
    MulLe(0, i, dim);
    if i < m {
      AValueHolds(v[..m], dim, i, h);
    }
  }

  /** The header is filled up with spaces, byte 32. */
  lemma TheFilling(text: seq<Byte>, n: nat, k: nat)
    requires k < n
    ensures |Spaced(text, n)| == |text| + n && Spaced(text, n)[|text| + k] == 32
  {
  }

  // ---- The reader of any file ----

  /** What the reader gives of a tensor is the header's: its shape, and the
      bytes at its offsets past the header, four for each number. */
  lemma WhatATensorIs(data: seq<Byte>, name: Header -> Entry, floats: bool, json: Json)
    requires |data| >= 8
    ensures var r, at := Tensor(data, name, floats, json), 8 + FromLittleEndian(data[..8]);
      var header := json.read(if at <= |data| then data[8..at] else data[8..]);
      && (header.None? || name(header.value).floats != floats ==> r.None?)
      && (header.Some? && name(header.value).floats == floats ==>
            var e := name(header.value);
            var size := 4 * Product(e.shape);
            && (e.end < e.start || e.end - e.start < size ==> r.None?)
            && (e.start <= e.end && at + e.end <= |data| ==>
                  r == if e.end - e.start == size then Some((e.shape, data[at + e.start..at + e.end])) else None))
  {
    hide FromLittleEndian, Product;
    var at := 8 + FromLittleEndian(data[..8]);
    assert Cut(data, 8, at) == if at <= |data| then data[8..at] else data[8..];
    var header := json.read(Cut(data, 8, at));
    if header.Some? {
      var e := name(header.value);
      assert |Cut(data, at + e.start, at + e.end)| <= if e.end < e.start then 0 else e.end - e.start;
    }
  }
}
