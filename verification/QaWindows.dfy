/** The window loop of bundle/reference/qa_reference.py: a context longer than
    the room beside its question is cut into windows that overlap. */
module QaWindows {

  datatype Family = Bert | Roberta

  datatype Special = Special(cls: int, sep: int)

  /** Where a window's tokens are in the context. */
  datatype Window = Window(start: nat, end: nat)

  function Least(a: int, b: int): int { if a < b then a else b }

  function Extra(f: Family): int { if f.Bert? then 3 else 4 }

  /** The windows of n tokens: each a room long but the last, each starting
      room - overlap after the one before, the last at the end. */
  ghost predicate Windowed(ws: seq<Window>, n: nat, room: int, overlap: int) {
    && |ws| > 0 && ws[0].start == 0
    && (forall i :: 0 <= i < |ws| ==> ws[i].start <= ws[i].end == Least(ws[i].start + room, n))
    && (forall i, j :: 0 <= i < j < |ws| && j == i + 1 ==> ws[j].start == ws[i].start + room - overlap)
    && (forall i :: 0 <= i < |ws| - 1 ==> ws[i].end < n)
    && ws[|ws| - 1].end == n
  }

  function Row(f: Family, s: Special, question: seq<int>, context: seq<int>, w: Window): seq<int>
    requires w.start <= w.end <= |context|
  {
    if f.Bert? then [s.cls] + question + [s.sep] + context[w.start..w.end] + [s.sep]
    else [s.cls] + question + [s.sep, s.sep] + context[w.start..w.end] + [s.sep]
  }

  function Copies(n: nat, v: int): (r: seq<int>)
    ensures |r| == n && forall k :: 0 <= k < n ==> r[k] == v
  {
    seq(n, _ => v)
  }

  function Segment(f: Family, question: seq<int>, row: seq<int>, w: Window): seq<int>
    requires w.start <= w.end
  {
    if f.Bert? then Copies(|question| + 2, 0) + Copies(w.end - w.start + 1, 1) else Copies(|row|, 0)
  }

  datatype Cut = Refused | Rows(windows: seq<Window>, rows: seq<seq<int>>, types: seq<seq<int>>)

  /** Each window's row and its segments. */
  ghost predicate RowsFit(f: Family, s: Special, question: seq<int>, context: seq<int>, ws: seq<Window>,
                          rows: seq<seq<int>>, types: seq<seq<int>>) {
    && |rows| == |types| == |ws|
    && forall i :: 0 <= i < |ws| ==>
         && ws[i].start <= ws[i].end <= |context|
         && rows[i] == Row(f, s, question, context, ws[i]) && types[i] == Segment(f, question, rows[i], ws[i])
  }

  /** The windows so far, the next to start at `start`. */
  ghost predicate Going(ws: seq<Window>, start: int, n: nat, room: int, overlap: int) {
    && 0 <= start && (ws == [] ==> start == 0) && (start < n || ws == [])
    && (ws != [] ==> ws[0].start == 0 && start == ws[|ws| - 1].start + room - overlap)
    && (forall i :: 0 <= i < |ws| ==> ws[i].start <= ws[i].end == Least(ws[i].start + room, n) && ws[i].end < n)
    && (forall i, j :: 0 <= i < j < |ws| && j == i + 1 ==> ws[j].start == ws[i].start + room - overlap)
  }

  /** One case: its rows and their segments, unless its overlap is not below
      the room its question leaves. */
  method RowsOf(f: Family, s: Special, limit: int, overlap: int, question: seq<int>, context: seq<int>) returns (r: Cut)
    ensures r.Refused? <==> !(0 <= overlap < limit - |question| - Extra(f))
    ensures r.Rows? ==>
      && Windowed(r.windows, |context|, limit - |question| - Extra(f), overlap)
      && RowsFit(f, s, question, context, r.windows, r.rows, r.types)
  {
    hide RowsFit, Row, Segment;
    var room := limit - |question| - Extra(f);
    if !(0 <= overlap < room) {
      return Refused;
    }
    var windows: seq<Window>, rows: seq<seq<int>>, types: seq<seq<int>> := [], [], [];
    NoRowsFit(f, s, question, context);
    var start := 0;
    while true
      invariant Going(windows, start, |context|, room, overlap)
      invariant RowsFit(f, s, question, context, windows, rows, types)
      decreases |context| - start
    {
      var end := Least(start + room, |context|);
      var w := Window(start, end);
      var ids := Row(f, s, question, context, w);
      RowsFitOneMore(f, s, question, context, windows, rows, types, w);
      windows, rows, types := windows + [w], rows + [ids], types + [Segment(f, question, ids, w)];
      if end == |context| {
        return Rows(windows, rows, types);
      }
      start := start + room - overlap;
    }
  }

  lemma NoRowsFit(f: Family, s: Special, question: seq<int>, context: seq<int>)
    ensures RowsFit(f, s, question, context, [], [], [])
  {
  }

  lemma RowsFitOneMore(f: Family, s: Special, question: seq<int>, context: seq<int>, ws: seq<Window>,
                       rows: seq<seq<int>>, types: seq<seq<int>>, w: Window)
    requires RowsFit(f, s, question, context, ws, rows, types) && w.start <= w.end <= |context|
    ensures var ids := Row(f, s, question, context, w);
      RowsFit(f, s, question, context, ws + [w], rows + [ids], types + [Segment(f, question, ids, w)])
  {
    hide Row, Segment;
  }

  /** What the windows bring that those before them did not, in order. */
  function Fresh(ws: seq<Window>, context: seq<int>, overlap: nat): seq<int>
    requires forall i :: 0 <= i < |ws| ==> ws[i].start <= ws[i].end <= |context|
  {
    if ws == [] then []
    else
      var w := ws[|ws| - 1];
      var from := if |ws| == 1 then w.start else w.start + overlap;
      Fresh(ws[..|ws| - 1], context, overlap) + (if from <= w.end then context[from..w.end] else [])
  }

  lemma {:induction false} FreshSoFar(ws: seq<Window>, context: seq<int>, room: int, overlap: nat, k: nat)
    requires Windowed(ws, |context|, room, overlap) && overlap < room && k < |ws|
    ensures forall i :: 0 <= i < |ws| ==> ws[i].start <= ws[i].end <= |context|
    ensures Fresh(ws[..k + 1], context, overlap) == context[..ws[k].end]
  {
    assert ws[..k + 1][..k] == ws[..k];
    if k > 0 {
      FreshSoFar(ws, context, room, overlap, k - 1);
      assert ws[k].start == ws[k - 1].start + room - overlap;
      assert context[..ws[k - 1].end] + context[ws[k - 1].end..ws[k].end] == context[..ws[k].end];
    }
  }

  /** Each window after the first repeats exactly the last `overlap` tokens of
      the one before and adds at least one; so laid end to end, each without
      what it repeats, they are the context. */
  lemma TheWindowsAreTheContext(ws: seq<Window>, context: seq<int>, room: int, overlap: nat)
    requires Windowed(ws, |context|, room, overlap) && overlap < room
    ensures forall i :: 0 <= i < |ws| ==> ws[i].start <= ws[i].end <= |context|
    ensures Fresh(ws, context, overlap) == context
    ensures forall i, j :: 0 <= i < j < |ws| && j == i + 1 ==>
      ws[i].end - ws[j].start == overlap && ws[i].end < ws[j].end
  {
    hide Fresh;
    FreshSoFar(ws, context, room, overlap, |ws| - 1);
    assert ws[..|ws|] == ws && context[..|context|] == context;
  }

  /** Every row fits the limit, and its segments are as many as its ids. */
  lemma EveryRowFits(f: Family, s: Special, limit: int, question: seq<int>, context: seq<int>, ws: seq<Window>,
                     overlap: nat, i: nat)
    requires Windowed(ws, |context|, limit - |question| - Extra(f), overlap) && overlap < limit - |question| - Extra(f)
    requires i < |ws|
    ensures ws[i].start <= ws[i].end <= |context|
    ensures var row := Row(f, s, question, context, ws[i]);
      && |row| == |question| + Extra(f) + (ws[i].end - ws[i].start) <= limit
      && |Segment(f, question, row, ws[i])| == |row|
  {
  }

  /** A row spelt out: BERT's is [CLS] question [SEP] window [SEP], RoBERTa's
      has two separators between; BERT's segments are 1 from the window on. */
  lemma ARowHolds(f: Family, s: Special, question: seq<int>, context: seq<int>, w: Window, k: nat)
    requires w.start <= w.end <= |context|
    ensures var row, q, n := Row(f, s, question, context, w), |question|, w.end - w.start;
      var at := if f == Bert then q + 2 else q + 3;
      && |row| == at + n + 1 && |Segment(f, question, row, w)| == |row|
      && row[0] == s.cls && row[q + 1] == row[at - 1] == row[at + n] == s.sep
      && (k < q ==> row[1 + k] == question[k])
      && (k < n ==> row[at + k] == context[w.start + k])
      && (k < |row| ==> Segment(f, question, row, w)[k] == if f == Bert && k >= at then 1 else 0)
  {
  }
}
