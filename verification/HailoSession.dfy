/** core/hailo/embed.cpp's Session: write, write_ranges, run and release over
    a ring of frame slots and an asynchronous device. */
module HailoSession {
  import opened Arith
  import opened HailoFrames
  import opened HailoDevice
  import opened HailoSlots
  import opened HailoModel
  import opened HailoFlight
  import opened HailoFill
  import opened HailoVectors

  datatype Failure = Ok | InvalidState | UnsupportedOption | InvalidArgument | Capacity | OutOfMemory
    | Runtime(why: Why)

  /** What failed on the device: a frame still ran when its wait was over, the
      queue had no room in time, or the device said so. */
  datatype Why = Late | NoRoom | Fault

  /** The wait that a failed call came to nothing in, in ms. */
  function Cost(f: Failure, frameTimeout: nat): nat {
    match f
    case Runtime(Late) => frameTimeout
    case Runtime(NoRoom) => FRAME_TIMEOUT
    case _ => 0
  }

  /** The rows of one run as the core passes them, row b at b * stride. */
  datatype Rows = Rows(
    batch: nat, seqLen: nat, stride: nat, ids: seq<int>, mask: seq<int>, types: Option<seq<int>>,
    pooling: Pooling, normalize: bool, dim: nat)
  {
    /** What the core has checked before it calls. */
    predicate Valid(d: Desc, maxBatch: nat, maxSeq: nat) {
      && batch <= maxBatch && 1 <= seqLen <= maxSeq && seqLen <= stride && dim <= d.hidden
      && |ids| == |mask| == batch * stride
      && (types.Some? ==> |types.value| == batch * stride)
      && (forall i :: 0 <= i < |ids| ==> 0 <= ids[i] < d.vocab)
    }

    /** A token type other than 0 among the rows' tokens. */
    ghost predicate Typed()
      requires types.Some? ==> |types.value| == batch * stride
      requires seqLen <= stride
    {
      types.Some? && exists b, t :: TypeAt(b, t)
    }

    /** What a write of the rows copies. */
    function AsTask(): Task
      requires |ids| == |mask| == batch * stride && seqLen <= stride
    {
      Task(LinesOf(ids, batch, batch, stride, seqLen), LinesOf(mask, batch, batch, stride, seqLen), seqLen,
           pooling, normalize, dim, false, [])
    }

    method FindType() returns (found: bool)
      requires types.Some? ==> |types.value| == batch * stride
      requires seqLen <= stride
      ensures found <==> Typed()
    {
      if types.Some? {
        for b := 0 to batch
          invariant forall i, t :: 0 <= i < b && 0 <= t < seqLen ==> !TypeAt(i, t)
        {
          for t := 0 to seqLen
            invariant forall i, u :: 0 <= i < b && 0 <= u < seqLen ==> !TypeAt(i, u)
            invariant forall u :: 0 <= u < t ==> !TypeAt(b, u)
          {
            Join(b, t, batch, stride);
            if types.value[b * stride + t] != 0 {
              assert TypeAt(b, t);
              return true;
            }
          }
        }
      }
      found := false;
    }

    ghost predicate TypeAt(b: int, t: int)
      requires types.Some? && |types.value| == batch * stride && seqLen <= stride
    {
      0 <= b < batch && 0 <= t < seqLen && (Join(b, t, batch, stride); types.value[b * stride + t] != 0)
    }
  }

  /** Line b of a buffer of lines of `stride`, its first len values. */
  function LineOf(a: seq<int>, b: nat, lines: nat, stride: nat, len: nat): (l: seq<int>)
    requires |a| == lines * stride && b < lines && len <= stride
    ensures |l| == len
  {
    MulLe(b + 1, lines, stride);
    Distribute(b, stride);
    MulLe(0, b, stride);
    a[b * stride..b * stride + len]
  }

  function LinesOf(a: seq<int>, batch: nat, lines: nat, stride: nat, len: nat): (l: seq<seq<int>>)
    requires |a| == lines * stride && batch <= lines && len <= stride
    ensures |l| == batch
  {
    seq(batch, b requires 0 <= b < batch => LineOf(a, b, lines, stride, len))
  }

  /** The ranges write_ranges accepts, of a write with the rows' means. */
  ghost predicate RangesOk(w: Task, ranges: seq<Range>) {
    forall i :: 0 <= i < |ranges| ==> w.RangeOk(ranges[i])
  }

  /** Copies n values of src from `from` to `to` of dst. */
  method CopyInto(dst: array<int>, to: nat, src: seq<int>, from: nat, n: nat)
    requires to + n <= dst.Length && from + n <= |src|
    modifies dst
    ensures dst[..] == old(dst[..])[..to] + src[from..from + n] + old(dst[..])[to + n..]
  {
    for i := 0 to n
      invariant forall j :: 0 <= j < dst.Length ==>
        dst[j] == if to <= j < to + i then src[from + (j - to)] else old(dst[j])
    {
      dst[to + i] := src[from + i];
    }
    ghost var now := old(dst[..])[..to] + src[from..from + n] + old(dst[..])[to + n..];
    assert forall j :: 0 <= j < dst.Length ==> dst[..][j] == now[j];
  }

  /** Copies `batch` lines of len values each from lines of stride `from` to
      lines of stride `to`. */
  method CopyLines(dst: array<int>, src: seq<int>, batch: nat, lines: nat, to: nat, from: nat, len: nat)
    requires dst.Length == lines * to && |src| == batch * from && batch <= lines && len <= to && len <= from
    modifies dst
    ensures LinesOf(dst[..], batch, lines, to, len) == LinesOf(src, batch, batch, from, len)
  {
    for b := 0 to batch
      invariant forall i :: 0 <= i < b ==> LineOf(dst[..], i, lines, to, len) == LineOf(src, i, batch, from, len)
    {
      ghost var was := dst[..];
      LineFits(b, lines, to, len);
      LineFits(b, batch, from, len);
      CopyInto(dst, b * to, src, b * from, len);
      LineWritten(was, dst[..], b, lines, to, len, src[b * from..b * from + len]);
    }
  }

  /** The frame sets a session of maxBatch rows makes: two of the model's
      bursts, no more than are queued or the rows need. */
  function SlotCount(burst: nat, queue: nat, maxBatch: nat): (n: nat)
    ensures n >= 1 && (burst == 0 || queue == 0 ==> n == 1)
    ensures burst > 0 && queue > 0 ==>
      var rows := if maxBatch < 2 then 2 else maxBatch;
      n <= 2 * burst && n <= queue && n <= rows && (n == 2 * burst || n == queue || n == rows)
  {
    Max(Min(Min(2 * burst, queue), Max(maxBatch, 2)), 1)
  }

  function Min(a: nat, b: nat): nat { if a < b then a else b }

  function Max(a: nat, b: nat): nat { if a < b then b else a }

  class Session {
    const model: Model
    const maxBatch: nat
    const maxSeq: nat
    const maxRanges: nat
    const frameTimeout: nat

    var batch: nat
    var len: nat
    var pooling: Pooling
    var normalize: bool
    var dim: nat
    var ranges: seq<Range>
    var byRanges: bool
    const ids: array<int>
    const mask: array<int>
    const sum: array<real>
    var slots: seq<Slot>
    var written: bool
    var broken: string

    ghost predicate Shaped()
    {
      && ids.Length == mask.Length == maxBatch * maxSeq && sum.Length == model.desc.hidden
      && ids != mask && model.desc.Valid()
      && maxSeq <= model.desc.frame
    }

    /** The session owns its frame sets, and nobody else's job touches them. */
    ghost predicate Owns()
      reads this`slots, model, model.device
    {
      && model.Valid()
      && SlotsOk(model.desc, model.device.mem, model.device.jobs, slots)
      && FramesOf(slots) !! FramesOf(model.retired)
    }

    /** What is copied in is a task the run can take. */
    ghost predicate Loaded()
      reads this, ids, mask
      requires Shaped()
    {
      && batch <= maxBatch && len <= maxSeq
      && Copied().Valid(model.desc)
    }

    /** The session's copy of what was written. */
    ghost function Copied(): Task
      reads this, ids, mask
      requires Shaped() && batch <= maxBatch && len <= maxSeq
    {
      Task(LinesOf(ids[..], batch, maxBatch, maxSeq, len), LinesOf(mask[..], batch, maxBatch, maxSeq, len), len,
           pooling, normalize, dim, byRanges, ranges)
    }

    /** The state between calls. */
    ghost predicate Valid()
      reads this, ids, mask, model, model.device
    {
      Owns() && Sound()
    }

    ghost predicate Sound()
      reads this, ids, mask
    {
      && Shaped() && 1 <= |slots|
      && (written ==> Loaded() && broken == "")
      && (broken == "" ==> forall k :: 0 <= k < |slots| ==> !slots[k].busy)
    }

    constructor Empty(model: Model, maxBatch: nat, maxSeq: nat, maxRanges: nat, frameTimeout: nat)
      requires model.Valid() && maxSeq <= model.desc.frame
      ensures this.model == model && this.maxBatch == maxBatch && this.maxSeq == maxSeq
      ensures this.maxRanges == maxRanges && this.frameTimeout == frameTimeout
      ensures Shaped() && Owns() && slots == [] && !written && broken == ""
      ensures fresh(ids) && fresh(mask) && fresh(sum)
    {
      this.model, this.maxBatch, this.maxSeq, this.maxRanges := model, maxBatch, maxSeq, maxRanges;
      this.frameTimeout := frameTimeout;
      batch, len, dim, pooling, normalize := 0, 0, 0, PoolMean, false;
      ranges, byRanges, slots, written, broken := [], false, [], false, "";
      MulLe(0, maxBatch, maxSeq);
      ids := new int[maxBatch * maxSeq];
      mask := new int[maxBatch * maxSeq];
      sum := new real[model.desc.hidden];
    }

    /** One more frame set, or nothing allocated. */
    method AddSlot() returns (f: Failure)
      requires Owns()
      modifies this`slots, model.device`turn, model.device`mem, model.device`next
      ensures Owns()
      ensures f.Ok? || f.OutOfMemory? || f.Runtime?
      ensures model.device.Stuck() ==> f.Ok?
      ensures f.Ok? ==> |slots| == |old(slots)| + 1 && !slots[|old(slots)|].busy && old(slots) <= slots
      ensures !f.Ok? ==> slots == old(slots)
      ensures FramesOf(old(slots)) <= FramesOf(slots)
      ensures FramesOf(slots) - FramesOf(old(slots)) !! old(model.device.mem).Keys
      ensures model.device.mem.Keys == old(model.device.mem).Keys + FramesOf(slots)
      ensures Stepped(old(model.device.mem), old(model.device.jobs), model.device.mem, model.device.jobs, {})
    {
      hide SlotOk, Separate, Stepped, Disjoint, FramesOf;
      ghost var mem0, jobs := model.device.mem, model.device.jobs;
      FramesAllocated(model.desc, mem0, jobs, slots);
      FramesAllocated(model.desc, mem0, jobs, model.retired);
      var s, short := NewSlot(model.device, model.desc);
      Grown(mem0, model.device.mem, jobs);
      SlotsKept(model.desc, mem0, jobs, model.device.mem, jobs, {}, slots);
      SlotsKept(model.desc, mem0, jobs, model.device.mem, jobs, {}, model.retired);
      if s.None? {
        return if short then OutOfMemory else Runtime(Fault);
      }
      FramesOfAppend(slots, s.value);
      AppendDisjoint(slots, s.value);
      slots := slots + [s.value];
      f := Ok;
    }

    /** Makes a session of idle frame sets, or leaves memory as it was but for
        what the model reaps. */
    static method Create(model: Model, maxBatch: nat, maxSeq: nat, maxRanges: nat, timeout: Option<nat>)
      returns (f: Failure, made: Option<Session>)
      requires model.Valid()
      modifies model`retired, model`retiredCount, model`handed, model`freed
      modifies model.device`turn, model.device`mem, model.device`jobs, model.device`waited, model.device`next
      ensures model.Valid() && model.device.waited == old(model.device.waited)
      ensures f.Ok? <==> made.Some?
      ensures model.device.Stuck() && timeout.Some? && maxSeq <= model.desc.frame ==> f.Ok?
      ensures made.Some? ==>
        fresh(made.value) && fresh(made.value.ids) && fresh(made.value.mask) && fresh(made.value.sum)
      ensures made.Some? ==>
        var s := made.value;
        && s.model == model && s.maxBatch == maxBatch && s.maxSeq == maxSeq && s.maxRanges == maxRanges
        && timeout == Some(s.frameTimeout)
        && s.Valid() && !s.written && s.broken == "" && |s.slots| == SlotCount(model.burst, model.queue, maxBatch)
        && FramesOf(s.slots) * old(model.device.mem).Keys <= FramesOf(old(model.retired))
      ensures model.device.mem.Keys ==
        old(model.device.mem).Keys - (FramesOf(old(model.retired)) - FramesOf(model.retired))
        + (if made.Some? then FramesOf(made.value.slots) else {})
      ensures FramesOf(model.retired) <= FramesOf(old(model.retired))
      ensures Stepped(old(model.device.mem), old(model.device.jobs), model.device.mem, model.device.jobs,
                      FramesOf(old(model.retired)))
    {
      hide Stepped, SlotOk, SlotsOk, Separate, Disjoint;
      assert FramesOf([]) == {};
      ghost var mem0, jobs0, mine := model.device.mem, model.device.jobs, FramesOf(model.retired);
      if maxSeq > model.desc.frame {
        StandingStill(mem0, jobs0, mine);
        FramesAllocated(model.desc, mem0, jobs0, model.retired);
        return UnsupportedOption, None;
      }
      model.Reap();
      ghost var mem1, jobs1, kept := model.device.mem, model.device.jobs, FramesOf(model.retired);
      FramesAllocated(model.desc, mem1, jobs1, model.retired);
      f, made := Build(model, maxBatch, maxSeq, maxRanges, timeout);
      StepGrows(mem1, jobs1, model.device.mem, model.device.jobs, kept, mine);
      StepsCompose(mem0, jobs0, mem1, jobs1, model.device.mem, model.device.jobs, mine);
    }

    /** Create after the model's frames were reaped. */
    static method Build(model: Model, maxBatch: nat, maxSeq: nat, maxRanges: nat, timeout: Option<nat>)
      returns (f: Failure, made: Option<Session>)
      requires model.Valid() && maxSeq <= model.desc.frame
      modifies model`retired, model`retiredCount, model`handed, model`freed
      modifies model.device`turn, model.device`mem, model.device`jobs, model.device`waited, model.device`next
      ensures model.Valid() && model.device.waited == old(model.device.waited)
      ensures f.Ok? <==> made.Some?
      ensures model.device.Stuck() && timeout.Some? ==> f.Ok?
      ensures made.Some? ==>
        fresh(made.value) && fresh(made.value.ids) && fresh(made.value.mask) && fresh(made.value.sum)
      ensures made.Some? ==>
        var s := made.value;
        && s.model == model && s.maxBatch == maxBatch && s.maxSeq == maxSeq && s.maxRanges == maxRanges
        && timeout == Some(s.frameTimeout)
        && s.Valid() && !s.written && s.broken == "" && |s.slots| == SlotCount(model.burst, model.queue, maxBatch)
        && FramesOf(s.slots) !! old(model.device.mem).Keys
      ensures model.device.mem.Keys ==
        old(model.device.mem).Keys - (FramesOf(old(model.retired)) - FramesOf(model.retired))
        + (if made.Some? then FramesOf(made.value.slots) else {})
      ensures FramesOf(model.retired) <= FramesOf(old(model.retired))
      ensures Stepped(old(model.device.mem), old(model.device.jobs), model.device.mem, model.device.jobs,
                      FramesOf(old(model.retired)))
    {
      hide Stepped, SlotOk, SlotsOk, Separate, Disjoint, Device.Valid, FramesOf;
      ghost var mem1, jobs1, kept := model.device.mem, model.device.jobs, FramesOf(model.retired);
      FramesAllocated(model.desc, mem1, jobs1, model.retired);
      var s: Session;
      f, s := Draft(model, maxBatch, maxSeq, maxRanges, timeout);
      ghost var mem2, jobs2, news := model.device.mem, model.device.jobs, FramesOf(s.slots);
      StepGrows(mem1, jobs1, mem2, jobs2, {}, kept);
      if !f.Ok? {
        s.Release();
        StepsOverFresh(mem1, jobs1, mem2, jobs2, model.device.mem, model.device.jobs, kept, news);
        return f, None;
      }
      made := Some(s);
    }

    /** The session object and as many of its frame sets as can be had. */
    static method Draft(model: Model, maxBatch: nat, maxSeq: nat, maxRanges: nat, timeout: Option<nat>)
      returns (f: Failure, s: Session)
      requires model.Valid() && maxSeq <= model.desc.frame
      modifies model.device`turn, model.device`mem, model.device`next
      ensures fresh(s) && fresh(s.ids) && fresh(s.mask) && fresh(s.sum)
      ensures s.model == model && s.maxBatch == maxBatch && s.maxSeq == maxSeq && s.maxRanges == maxRanges
      ensures s.Shaped() && s.Owns() && !s.written && s.broken == ""
      ensures forall k :: 0 <= k < |s.slots| ==> !s.slots[k].busy
      ensures model.device.Stuck() && timeout.Some? ==> f.Ok?
      ensures f.Ok? ==> timeout == Some(s.frameTimeout) && |s.slots| == SlotCount(model.burst, model.queue, maxBatch)
      ensures FramesOf(s.slots) !! old(model.device.mem).Keys
      ensures model.device.mem.Keys == old(model.device.mem).Keys + FramesOf(s.slots)
      ensures Stepped(old(model.device.mem), old(model.device.jobs), model.device.mem, model.device.jobs, {})
    {
      hide Stepped, SlotOk, SlotsOk, Separate, Disjoint, Device.Valid;
      s := new Session.Empty(model, maxBatch, maxSeq, maxRanges, timeout.GetOr(0));
      assert FramesOf([]) == {};
      if timeout.Some? {
        var n := SlotCount(model.burst, model.queue, maxBatch);
        f := s.AddSlots(n);
      } else {
        StandingStill(model.device.mem, model.device.jobs, {});
        f := InvalidArgument;
      }
    }

    /** n frame sets, stopping at the first that cannot be had. */
    method AddSlots(n: nat) returns (f: Failure)
      requires Owns() && slots == []
      modifies this`slots, model.device`turn, model.device`mem, model.device`next
      ensures Owns() && (forall k :: 0 <= k < |slots| ==> !slots[k].busy)
      ensures f.Ok? || f.OutOfMemory? || f.Runtime?
      ensures model.device.Stuck() ==> f.Ok?
      ensures f.Ok? ==> |slots| == n
      ensures FramesOf(slots) !! old(model.device.mem).Keys
      ensures model.device.mem.Keys == old(model.device.mem).Keys + FramesOf(slots)
      ensures Stepped(old(model.device.mem), old(model.device.jobs), model.device.mem, model.device.jobs, {})
    {
      hide SlotOk, SlotsOk, Separate, Disjoint, Stepped;
      ghost var mem0, jobs0 := model.device.mem, model.device.jobs;
      StandingStill(mem0, jobs0, {});
      for i := 0 to n
        invariant Owns() && |slots| == i && model.retired == old(model.retired)
        invariant forall k :: 0 <= k < |slots| ==> !slots[k].busy
        invariant FramesOf(slots) !! mem0.Keys
        invariant model.device.mem.Keys == mem0.Keys + FramesOf(slots)
        invariant model.device.jobs == jobs0
        invariant Stepped(mem0, jobs0, model.device.mem, jobs0, {})
      {
        ghost var mem1 := model.device.mem;
        f := AddSlot();
        StepsCompose(mem0, jobs0, mem1, jobs0, model.device.mem, jobs0, {});
        if !f.Ok? {
          return;
        }
      }
      f := Ok;
    }

    /** Copies the rows in. A refused write leaves nothing written. */
    method Write(r: Rows) returns (f: Failure)
      requires Valid() && r.Valid(model.desc, maxBatch, maxSeq)
      modifies this`written, this`byRanges, this`ranges, this`batch, this`len, this`pooling, this`normalize, this`dim
      modifies ids, mask
      ensures Valid()
      ensures broken != "" ==> f == InvalidState
      ensures broken == "" ==> f == if r.Typed() then UnsupportedOption else Ok
      ensures written <==> f.Ok?
      ensures f.Ok? ==> Copied() == r.AsTask()
    {
      hide Session.Owns, LineOf, LinesOf, Rows.Typed, Task.Valid;
      if broken != "" {
        return InvalidState;
      }
      written, byRanges, ranges := false, false, [];
      var typed := r.FindType();
      if typed {
        return UnsupportedOption;
      }
      CopyIn(r);
      written := true;
      f := Ok;
    }

    method CopyIn(r: Rows)
      requires Shaped() && r.Valid(model.desc, maxBatch, maxSeq)
      modifies this`batch, this`len, this`pooling, this`normalize, this`dim, ids, mask
      ensures batch == r.batch && len == r.seqLen && batch <= maxBatch && len <= maxSeq
      ensures Copied() == r.AsTask().(byRanges := byRanges, ranges := ranges)
      ensures !byRanges && ranges == [] ==> Loaded()
    {
      hide LineOf, LinesOf;
      batch, len, pooling, normalize, dim := r.batch, r.seqLen, r.pooling, r.normalize, r.dim;
      CopyLines(ids, r.ids, r.batch, maxBatch, maxSeq, r.stride, r.seqLen);
      CopyLines(mask, r.mask, r.batch, maxBatch, maxSeq, r.stride, r.seqLen);
      TaskIsValid(model.desc, r, maxBatch, maxSeq);
    }

    /** Copies the rows and the ranges in, or leaves nothing written. */
    method WriteRanges(r: Rows, given: seq<Range>) returns (f: Failure)
      requires Valid() && r.Valid(model.desc, maxBatch, maxSeq)
      modifies this`written, this`byRanges, this`ranges, this`batch, this`len, this`pooling, this`normalize, this`dim
      modifies ids, mask
      ensures Valid()
      ensures f.Ok? <==>
        broken == "" && !r.Typed() && r.pooling == PoolMean && 0 < |given| <= maxRanges && RangesOk(r.AsTask(), given)
      ensures broken != "" ==> f == InvalidState
      ensures written <==> f.Ok?
      ensures f.Ok? ==> Copied() == r.AsTask().(byRanges := true, ranges := given)
    {
      hide Session.Owns, LineOf, LinesOf;
      f := Write(r);
      if !f.Ok? {
        return;
      }
      written := false;
      if r.pooling != PoolMean {
        return UnsupportedOption;
      }
      if |given| == 0 {
        return InvalidArgument;
      }
      if |given| > maxRanges {
        return Capacity;
      }
      var fit := CheckRanges(given);
      if !fit {
        return InvalidArgument;
      }
      ranges, byRanges := given, true;
      written := true;
      f := Ok;
    }

    /** Whether each range lies in a row and has a token with mask 1. */
    method CheckRanges(given: seq<Range>) returns (fit: bool)
      requires Shaped() && batch <= maxBatch && len <= maxSeq
      ensures fit <==> RangesOk(Copied(), given)
    {
      ghost var w := Copied();
      for i := 0 to |given|
        invariant RangesOk(w, given[..i])
      {
        var g := given[i];
        if g.row >= batch || g.start >= g.end || g.end > len {
          assert !w.RangeOk(given[i]);
          return false;
        }
        var line := LineOf(mask[..], g.row, maxBatch, maxSeq, len);
        assert line == w.mask[g.row];
        if 1 !in line[g.start..g.end] {
          assert !w.RangeOk(given[i]);
          return false;
        }
        assert given[..i + 1] == given[..i] + [g];
      }
      assert given[..|given|] == given;
      fit := true;
    }

    /** In the middle of a run, before row `row` is sent. */
    ghost predicate Running(w: Task, row: nat, pooled: seq<nat>, out: array<real>)
      reads this, ids, mask, model, model.device, out
    {
      && Shaped() && Owns() && 1 <= |slots| && broken == "" && !written
      && batch <= maxBatch && len <= maxSeq && Copied() == w && w.Valid(model.desc)
      && MidRun(model.desc, model.device.encode, w, row, pooled, model.device.mem, model.device.jobs, slots)
      && out != sum && w.Count() * w.dim <= out.Length
      && Delivered(model.desc, model.device.encode, w, out[..], pooled)
    }

    lemma RunningOwns(w: Task, row: nat, pooled: seq<nat>, out: array<real>)
      requires Running(w, row, pooled, out)
      ensures Owns() && 1 <= |slots|
    {
    }

    /** Every frame in flight still runs. */
    ghost predicate Sitting()
      reads this`slots, model.device
    {
      forall k :: 0 <= k < |slots| && slots[k].busy ==> RunningAt(model.device.jobs, slots[k].job)
    }

    /** Some frame in flight still runs. */
    ghost predicate Waiting()
      reads this`slots, model.device
    {
      exists k :: 0 <= k < |slots| && slots[k].busy && RunningAt(model.device.jobs, slots[k].job)
    }

    /** The session's frames are as many and the same, and nobody else's
        were touched. */
    twostate predicate Steady()
      reads this, model, model.device
    {
      && Owns() && |slots| == |old(slots)| && FramesOf(slots) == FramesOf(old(slots))
      && model.device.mem.Keys == old(model.device.mem).Keys
      && Stepped(old(model.device.mem), old(model.device.jobs), model.device.mem, model.device.jobs, FramesOf(slots))
    }

    /** Pools the vectors of slot k's row out of its frame, each to its own
        place in out. */
    method Pool(k: nat, out: array<real>, ghost w: Task)
      requires Shaped() && batch <= maxBatch && len <= maxSeq && Copied() == w && w.Valid(model.desc)
      requires k < |slots| && slots[k].row < |w.ids| && out != sum && w.Count() * w.dim <= out.Length
      requires slots[k].states in model.device.mem && !Owned(model.device.jobs, slots[k].states)
      requires model.device.mem[slots[k].states] == StatesOf(model.desc, model.device.encode, w, slots[k].row)
      modifies sum, out
      ensures forall i :: 0 <= i < w.Count() ==>
        Vec(out[..], i, w.Count(), w.dim) ==
        if w.RowOf(i) == slots[k].row then Owed(model.desc, model.device.encode, w, i)
        else Vec(old(out[..]), i, w.Count(), w.dim)
      ensures Past(out[..], w.Count(), w.dim) == Past(old(out[..]), w.Count(), w.dim)
    {
      hide VectorOf, StatesOf, LinesOf, LineOf, Vec, Past, Owned;
      var row := slots[k].row;
      var states := model.device.Load(slots[k].states);
      var line := LineOf(mask[..], row, maxBatch, maxSeq, len);
      LinesAt(mask[..], batch, maxBatch, maxSeq, len, row);
      if byRanges {
        PoolRanges(model.desc, w, states, line, row, ranges, dim, normalize, sum, out);
      } else {
        PoolRow(model.desc, w, states, line, row, pooling, len, dim, normalize, sum, out);
      }
    }

    /** Waits for slot k's frame. */
    method Await(k: nat, out: array<real>, ghost w: Task, ghost row: nat, ghost pooled: seq<nat>)
      returns (status: Status)
      requires Running(w, row, pooled, out) && k < |slots| && slots[k].busy
      modifies model.device`turn, model.device`mem, model.device`jobs, model.device`waited
      ensures Running(w, row, pooled, out) && Steady()
      ensures slots[k].row < |w.ids| && slots[k].job < |model.device.jobs|
      ensures status.Success? ==> model.device.jobs[slots[k].job].state.Done?
      ensures status.TimedOut? <==> RunningAt(model.device.jobs, slots[k].job)
      ensures model.device.waited == old(model.device.waited) + (if status.TimedOut? then frameTimeout else 0)
      ensures model.device.Stuck() ==> model.device.jobs == old(model.device.jobs)
    {
      hide SlotOk, Stepped, Separate, Progress, MidRun, Disjoint, FramesOf, Delivered, LinesOf, Task.Valid, Past;
      ghost var d, encode, mem0, jobs0 := model.desc, model.device.encode, model.device.mem, model.device.jobs;
      CameBack(d, encode, w, row, pooled, mem0, jobs0, slots, k);
      status := model.device.Wait(slots[k].job, frameTimeout);
      DeviceKeeps(encode, d, mem0, jobs0, model.device.mem, model.device.jobs, slots, model.retired);
      MidRunWaits(encode, d, w, row, pooled, mem0, jobs0, model.device.mem, model.device.jobs, slots);
    }

    /** Slot k's frame has come back: its row is pooled, and the slot idle. */
    method Settle(k: nat, out: array<real>, ghost w: Task, ghost row: nat, ghost pooled: seq<nat>)
      requires Running(w, row, pooled, out) && k < |slots| && slots[k].busy && slots[k].job < |model.device.jobs|
      requires model.device.jobs[slots[k].job].state.Done?
      modifies this`slots, sum, out
      ensures Running(w, row, pooled + [old(slots[k].row)], out) && Owns() && FramesOf(slots) == FramesOf(old(slots))
      ensures slots == old(slots)[k := old(slots[k]).(busy := false)]
      ensures Past(out[..], w.Count(), w.dim) == Past(old(out[..]), w.Count(), w.dim)
    {
      hide SlotOk, Separate, MidRun, Disjoint, FramesOf, Delivered, LinesOf, Task.Valid, Vec, Owed, Past;
      ghost var d, encode, mem, jobs := model.desc, model.device.encode, model.device.mem, model.device.jobs;
      CameBack(d, encode, w, row, pooled, mem, jobs, slots, k);
      MidRunReturns(d, encode, w, row, pooled, mem, jobs, slots, k);
      MidRunOwns(d, encode, w, row, pooled + [slots[k].row], mem, jobs, slots[k := slots[k].(busy := false)]);
      slots := slots[k := slots[k].(busy := false)];
      ghost var was := out[..];
      Pool(k, out, w);
      DeliveredMore(d, encode, w, was, out[..], pooled, slots[k].row);
    }

    /** Waits for slot k's frame, if one is in flight, and pools it. */
    method Finish(k: nat, out: array<real>, ghost w: Task, ghost row: nat, ghost pooled: seq<nat>)
      returns (f: Failure, bytes: nat, ghost pooled': seq<nat>)
      requires Running(w, row, pooled, out) && k < |slots|
      modifies this`slots, this`broken, sum, out
      modifies model.device`turn, model.device`mem, model.device`jobs, model.device`waited
      ensures Steady() && (f.Ok? || f == Runtime(Late) || f == Runtime(Fault))
      ensures f.Ok? ==> Running(w, row, pooled', out) && slots == old(slots)[k := old(slots)[k].(busy := false)]
      ensures f.Ok? ==> pooled' == if old(slots)[k].busy then pooled + [old(slots)[k].row] else pooled
      ensures f.Ok? ==> bytes == if old(slots)[k].busy then model.desc.StatesBytes() else 0
      ensures !f.Ok? ==> broken != "" && slots == old(slots)
      // It waits in vain just for a frame that still runs.
      ensures f == Runtime(Late) <==> old(slots[k].busy) && RunningAt(model.device.jobs, old(slots[k].job))
      ensures model.device.waited == old(model.device.waited) + Cost(f, frameTimeout)
      ensures model.device.Stuck() && old(Sitting()) ==>
        if old(slots[k].busy) then f == Runtime(Late) else f.Ok? && Sitting()
      ensures Past(out[..], w.Count(), w.dim) == Past(old(out[..]), w.Count(), w.dim)
    {
      hide Stepped, MidRun, FramesOf, LinesOf, Task.Valid, Device.Valid, Past;
      hide Device.Stuck, Session.Running, Session.Owns, Session.Shaped;
      RunningOwns(w, row, pooled, out);
      pooled', bytes := pooled, 0;
      if !slots[k].busy {
        assert slots == slots[k := slots[k].(busy := false)];
        StandingStill(model.device.mem, model.device.jobs, FramesOf(slots));
        return Ok, 0, pooled;
      }
      var status := Await(k, out, w, row, pooled);
      if !status.Success? {
        broken := "a frame failed on the device; release the session";
        return Runtime(if status.TimedOut? then Late else Fault), 0, pooled;
      }
      pooled' := pooled + [slots[k].row];
      Settle(k, out, w, row, pooled);
      bytes := model.desc.StatesBytes();
      f := Ok;
    }

    /** Row row's frame, into slot k. */
    method Fill(k: nat, row: nat, ghost w: Task, ghost pooled: seq<nat>, ghost out: array<real>)
      requires Running(w, row, pooled, out) && row < |w.ids| && k < |slots| && !slots[k].busy
      modifies this`slots, model.device`mem
      ensures Running(w, row, pooled, out) && Steady()
      ensures slots == old(slots)[k := old(slots)[k].(row := row)]
      ensures slots[k].rows in model.device.mem && slots[k].bias in model.device.mem
      ensures model.device.mem[slots[k].rows] == RowsFrame(model.desc, w.ids[row])
      ensures model.device.mem[slots[k].bias] == BiasFrame(model.desc, w.mask[row])
      ensures old(Sitting()) ==> Sitting()
    {
      hide Stepped, Separate, MidRun, Disjoint, FramesOf, Delivered, LinesOf, LineOf, Vec, Owed, RowsFrame,
        BiasFrame, Past;
      hide Accounted, Owned, SlotOk;
      ghost var d, encode, mem0, jobs := model.desc, model.device.encode, model.device.mem, model.device.jobs;
      var s := slots[k];
      IdleIsTheHosts(d, encode, w, row, pooled, mem0, jobs, slots, k);
      LinesAt(ids[..], batch, maxBatch, maxSeq, len, row);
      LinesAt(mask[..], batch, maxBatch, maxSeq, len, row);
      FillRows(model.device, model.desc, s.rows, LineOf(ids[..], row, maxBatch, maxSeq, len));
      FillBias(model.device, model.desc, s.bias, LineOf(mask[..], row, maxBatch, maxSeq, len));
      RowsFrameLen(d, w.ids[row]);
      BiasFrameIs(d, w.mask[row]);
      MidRunFills(d, encode, w, row, pooled, mem0, model.device.mem, jobs, slots, k, slots[k := s.(row := row)]);
      SlotsKept(d, mem0, jobs, model.device.mem, jobs, FramesOf(slots), model.retired);
      MidRunOwns(d, encode, w, row, pooled, model.device.mem, jobs, slots[k := s.(row := row)]);
      slots := slots[k := s.(row := row)];
    }

    /** Waits for room in the device's queue; slot k's frames stand. */
    method Room(k: nat, row: nat, ghost w: Task, ghost pooled: seq<nat>, ghost out: array<real>) returns (ready: bool)
      requires Running(w, row, pooled, out) && k < |slots| && !slots[k].busy
      modifies model.device`turn, model.device`mem, model.device`jobs, model.device`waited
      ensures Running(w, row, pooled, out) && Steady()
      ensures forall a :: a in slots[k].Frames() ==>
        a in model.device.mem && a in old(model.device.mem) && model.device.mem[a] == old(model.device.mem)[a]
      ensures model.device.waited ==
        if ready then old(model.device.waited) else old(model.device.waited) + FRAME_TIMEOUT
      ensures model.device.Stuck() ==> ready && (old(Sitting()) ==> Sitting())
    {
      hide SlotOk, Stepped, Separate, Progress, MidRun, Disjoint, FramesOf, Delivered, LinesOf, Task.Valid, Past;
      ghost var d, encode, mem0, jobs0 := model.desc, model.device.encode, model.device.mem, model.device.jobs;
      ready := model.device.Ready();
      DeviceKeeps(encode, d, mem0, jobs0, model.device.mem, model.device.jobs, slots, model.retired);
      MidRunWaits(encode, d, w, row, pooled, mem0, jobs0, model.device.mem, model.device.jobs, slots);
      MidRunOwns(d, encode, w, row, pooled, mem0, jobs0, slots);
      IdleUntouched(d, encode, mem0, jobs0, model.device.mem, model.device.jobs, slots[k]);
    }

    /** run_async on slot k, which holds the row's frame. */
    method Submit(k: nat, row: nat, ghost w: Task, ghost pooled: seq<nat>, ghost out: array<real>) returns (ok: bool)
      requires Running(w, row, pooled, out) && row < |w.ids| && k == row % |slots| && !slots[k].busy
      requires slots[k].row == row && slots[k].rows in model.device.mem && slots[k].bias in model.device.mem
      requires model.device.mem[slots[k].rows] == RowsFrame(model.desc, w.ids[row])
      requires model.device.mem[slots[k].bias] == BiasFrame(model.desc, w.mask[row])
      modifies this`slots, model.device`turn, model.device`jobs
      ensures Steady() && (ok ==> Running(w, row + 1, pooled, out))
      ensures model.device.Stuck() ==> ok
      ensures ok && old(Sitting()) ==> Sitting()
    {
      hide SlotOk, Stepped, Separate, MidRun, Disjoint, FramesOf, Delivered, LinesOf, Task.Valid, Owned, Past;
      ghost var d, encode, mem, jobs0 := model.desc, model.device.encode, model.device.mem, model.device.jobs;
      var s := slots[k];
      IdleIsTheHosts(d, encode, w, row, pooled, mem, jobs0, slots, k);
      var job := model.device.Submit(s.rows, s.bias, s.states);
      if job.None? {
        StandingStill(mem, jobs0, FramesOf(slots));
        return false;
      }
      ghost var slots' := slots[k := s.(job := job.value, busy := true)];
      MidRunSends(d, encode, w, row, pooled, mem, jobs0, slots, slots');
      SlotsKept(d, mem, jobs0, mem, model.device.jobs, FramesOf(slots), model.retired);
      MidRunOwns(d, encode, w, row + 1, pooled, mem, model.device.jobs, slots');
      slots := slots[k := s.(job := job.value, busy := true)];
      ok := true;
    }

    /** Hands slot k, which holds the row's frame, to the device once there is
        room. */
    method Hand(k: nat, row: nat, ghost w: Task, ghost pooled: seq<nat>, ghost out: array<real>) returns (f: Failure)
      requires Running(w, row, pooled, out) && row < |w.ids| && k == row % |slots| && !slots[k].busy
      requires slots[k].row == row && slots[k].rows in model.device.mem && slots[k].bias in model.device.mem
      requires model.device.mem[slots[k].rows] == RowsFrame(model.desc, w.ids[row])
      requires model.device.mem[slots[k].bias] == BiasFrame(model.desc, w.mask[row])
      modifies this`slots
      modifies model.device`turn, model.device`mem, model.device`jobs, model.device`waited
      ensures Steady() && (f.Ok? || f == Runtime(NoRoom) || f == Runtime(Fault))
      ensures f.Ok? ==> Running(w, row + 1, pooled, out)
      ensures model.device.waited == old(model.device.waited) + Cost(f, frameTimeout)
      ensures model.device.Stuck() && old(Sitting()) ==> f.Ok? && Sitting()
    {
      hide Stepped, FramesOf, RowsFrame, BiasFrame;
      hide Device.Stuck, Session.Sitting, Session.Running, Session.Owns;
      RunningOwns(w, row, pooled, out);
      ghost var mem0, jobs0, mine := model.device.mem, model.device.jobs, FramesOf(slots);
      var ready := Room(k, row, w, pooled, out);
      if !ready {
        return Runtime(NoRoom);
      }
      ghost var mem1, jobs1 := model.device.mem, model.device.jobs;
      assert slots[k].rows in slots[k].Frames() && slots[k].bias in slots[k].Frames();
      var sent := Submit(k, row, w, pooled, out);
      StepsCompose(mem0, jobs0, mem1, jobs1, model.device.mem, model.device.jobs, mine);
      f := if sent then Ok else Runtime(Fault);
    }

    /** Fills slot k with the row and hands it to the device. */
    method Send(k: nat, row: nat, ghost w: Task, ghost pooled: seq<nat>, ghost out: array<real>)
      returns (f: Failure, bytes: nat)
      requires Running(w, row, pooled, out) && row < |w.ids| && k == row % |slots| && !slots[k].busy
      modifies this`slots, this`broken
      modifies model.device`turn, model.device`mem, model.device`jobs, model.device`waited
      ensures Steady() && (f.Ok? || f == Runtime(NoRoom) || f == Runtime(Fault))
      ensures f.Ok? ==> Running(w, row + 1, pooled, out) && bytes == model.desc.RowsBytes() + model.desc.BiasBytes()
      ensures !f.Ok? ==> broken != ""
      ensures model.device.waited == old(model.device.waited) + Cost(f, frameTimeout)
      ensures model.device.Stuck() && old(Sitting()) ==> f.Ok? && Sitting()
    {
      hide Stepped, FramesOf, RowsFrame, BiasFrame;
      hide Device.Stuck, Session.Sitting, Session.Running, Session.Owns;
      RunningOwns(w, row, pooled, out);
      ghost var mem0, jobs0, mine := model.device.mem, model.device.jobs, FramesOf(slots);
      Fill(k, row, w, pooled, out);
      ghost var mem1, jobs1 := model.device.mem, model.device.jobs;
      f := Hand(k, row, w, pooled, out);
      bytes := model.desc.RowsBytes() + model.desc.BiasBytes();
      StepsCompose(mem0, jobs0, mem1, jobs1, model.device.mem, model.device.jobs, mine);
      if !f.Ok? {
        broken := "a frame failed on the device; release the session";
      }
    }

    /** One row's turn: its slot's frame comes back, and the row is sent. */
    method Turn(row: nat, out: array<real>, ghost w: Task, ghost pooled: seq<nat>)
      returns (f: Failure, up: nat, down: nat, ghost pooled': seq<nat>)
      requires Running(w, row, pooled, out) && row < |w.ids|
      modifies this`slots, this`broken, sum, out
      modifies model.device`turn, model.device`mem, model.device`jobs, model.device`waited
      ensures Steady() && (f.Ok? || f.Runtime?)
      ensures f.Ok? ==> Running(w, row + 1, pooled', out) && up == model.desc.RowsBytes() + model.desc.BiasBytes()
      ensures f.Ok? ==> |pooled| <= |pooled'| <= |pooled| + 1
      ensures f.Ok? ==> down == if |pooled'| > |pooled| then model.desc.StatesBytes() else 0
      ensures !f.Ok? ==> broken != ""
      ensures f == Runtime(Late) ==> Waiting()
      ensures model.device.waited == old(model.device.waited) + Cost(f, frameTimeout)
      ensures model.device.Stuck() && old(Sitting()) ==> f == Runtime(Late) || (f.Ok? && Sitting() && pooled' == pooled)
      ensures Past(out[..], w.Count(), w.dim) == Past(old(out[..]), w.Count(), w.dim)
    {
      hide Stepped, MidRun, FramesOf, Delivered, LinesOf, SlotsOk, Task.Valid, Device.Valid, Past;
      ghost var mem0, jobs0, mine := model.device.mem, model.device.jobs, FramesOf(slots);
      var k := row % |slots|;
      f, down, pooled' := Finish(k, out, w, row, pooled);
      up := 0;
      if !f.Ok? {
        return;
      }
      ghost var mem1, jobs1 := model.device.mem, model.device.jobs;
      f, up := Send(k, row, w, pooled', out);
      StepsCompose(mem0, jobs0, mem1, jobs1, model.device.mem, model.device.jobs, mine);
    }

    /** Each row in turn, until one fails. */
    method SendAll(out: array<real>, ghost w: Task) returns (f: Failure, h2d: nat, d2h: nat, ghost pooled: seq<nat>)
      requires Running(w, 0, [], out)
      modifies this`slots, this`broken, sum, out
      modifies model.device`turn, model.device`mem, model.device`jobs, model.device`waited
      ensures Steady() && (f.Ok? || f.Runtime?)
      ensures f.Ok? ==> Running(w, batch, pooled, out)
      ensures f.Ok? ==> h2d == batch * (model.desc.RowsBytes() + model.desc.BiasBytes())
      ensures f.Ok? ==> d2h == |pooled| * model.desc.StatesBytes()
      ensures !f.Ok? ==> broken != ""
      ensures f == Runtime(Late) ==> Waiting()
      ensures model.device.waited == old(model.device.waited) + Cost(f, frameTimeout)
      ensures model.device.Stuck() && old(Sitting()) ==> f == Runtime(Late) || (f.Ok? && Sitting() && pooled == [])
      ensures Past(out[..], w.Count(), w.dim) == Past(old(out[..]), w.Count(), w.dim)
    {
      hide Stepped, MidRun, FramesOf, Delivered, LinesOf, SlotsOk, Task.Valid, Device.Valid, Past;
      f, h2d, d2h, pooled := Ok, 0, 0, [];
      ghost var mem0, jobs0, mine := model.device.mem, model.device.jobs, FramesOf(slots);
      StandingStill(mem0, jobs0, mine);
      var row := 0;
      while row < batch && f.Ok?
        invariant row <= batch && Steady() && (f.Ok? || f.Runtime?)
        invariant f.Ok? ==> Running(w, row, pooled, out)
        invariant f.Ok? ==> h2d == row * (model.desc.RowsBytes() + model.desc.BiasBytes())
        invariant f.Ok? ==> d2h == |pooled| * model.desc.StatesBytes()
        invariant !f.Ok? ==> broken != ""
        invariant f == Runtime(Late) ==> Waiting()
        invariant model.device.waited == old(model.device.waited) + Cost(f, frameTimeout)
        invariant model.device.Stuck() && old(Sitting()) ==> f == Runtime(Late) || (f.Ok? && Sitting() && pooled == [])
        invariant Past(out[..], w.Count(), w.dim) == Past(old(out[..]), w.Count(), w.dim)
        decreases batch - row, f.Ok?
      {
        ghost var mem1, jobs1, was := model.device.mem, model.device.jobs, |pooled|;
        var up, down: nat;
        f, up, down, pooled := Turn(row, out, w, pooled);
        StepsCompose(mem0, jobs0, mem1, jobs1, model.device.mem, model.device.jobs, mine);
        Distribute(row, model.desc.RowsBytes() + model.desc.BiasBytes());
        Distribute(was, model.desc.StatesBytes());
        h2d, d2h := h2d + up, d2h + down;
        if f.Ok? {
          row := row + 1;
        }
      }
    }

    /** Takes back what the ring still holds, slot by slot, and stops at the
        first that fails. */
    method Drain(out: array<real>, ghost w: Task, ghost pooled: seq<nat>)
      returns (f: Failure, d2h: nat, ghost pooled': seq<nat>)
      requires Running(w, batch, pooled, out)
      modifies this`slots, this`broken, sum, out
      modifies model.device`turn, model.device`mem, model.device`jobs, model.device`waited
      ensures Steady() && (f.Ok? || f.Runtime?)
      ensures f.Ok? ==> Running(w, batch, pooled', out) && forall j :: 0 <= j < |slots| ==> !slots[j].busy
      ensures f.Ok? ==> |pooled| <= |pooled'| && d2h == (|pooled'| - |pooled|) * model.desc.StatesBytes()
      ensures !f.Ok? ==> broken != ""
      ensures f == Runtime(Late) ==> Waiting()
      ensures model.device.waited == old(model.device.waited) + Cost(f, frameTimeout)
      ensures model.device.Stuck() && old(Sitting()) ==> f == Runtime(Late) || (f.Ok? && pooled' == pooled)
      ensures Past(out[..], w.Count(), w.dim) == Past(old(out[..]), w.Count(), w.dim)
    {
      hide Stepped, MidRun, FramesOf, Delivered, LinesOf, SlotsOk, Task.Valid, Device.Valid, Past;
      f, d2h, pooled' := Ok, 0, pooled;
      ghost var mem0, jobs0, mine := model.device.mem, model.device.jobs, FramesOf(slots);
      StandingStill(mem0, jobs0, mine);
      for k := 0 to |slots|
        invariant Steady() && (f.Ok? || f.Runtime?)
        invariant f.Ok? ==> Running(w, batch, pooled', out)
        invariant f.Ok? ==> |pooled| <= |pooled'| && d2h == (|pooled'| - |pooled|) * model.desc.StatesBytes()
        invariant f.Ok? ==> forall j :: 0 <= j < k ==> !slots[j].busy
        invariant !f.Ok? ==> broken != ""
        invariant f == Runtime(Late) ==> Waiting()
        invariant model.device.waited == old(model.device.waited) + Cost(f, frameTimeout)
        invariant model.device.Stuck() && old(Sitting()) ==>
          f == Runtime(Late) || (f.Ok? && Sitting() && pooled' == pooled)
        invariant Past(out[..], w.Count(), w.dim) == Past(old(out[..]), w.Count(), w.dim)
      {
        if f.Ok? {
          ghost var mem1, jobs1, was := model.device.mem, model.device.jobs, |pooled'|;
          var down;
          f, down, pooled' := Finish(k, out, w, batch, pooled');
          StepsCompose(mem0, jobs0, mem1, jobs1, model.device.mem, model.device.jobs, mine);
          Distribute(was - |pooled|, model.desc.StatesBytes());
          d2h := d2h + down;
        }
      }
    }

    /** Runs every row, each vector to its own place in out. */
    method Run(out: array<real>) returns (f: Failure, h2d: nat, d2h: nat, ghost pooled: seq<nat>)
      requires Valid() && out != sum
      requires written ==> Copied().Count() * dim <= out.Length
      modifies this`slots, this`broken, this`written, sum, out
      modifies model.device`turn, model.device`mem, model.device`jobs, model.device`waited
      ensures Valid() && Steady() && !written
      // Refused: nothing ran.
      ensures !old(written) ==> f.InvalidState? && out[..] == old(out[..]) && broken == old(broken)
      ensures old(written) ==> (f.Ok? || f.Runtime?) && (f.Ok? <==> broken == "")
      // Each row was pooled once, and each vector is the one its row owes.
      ensures f.Ok? ==> |pooled| == old(batch) && forall b: nat :: b in pooled <==> b < old(batch)
      ensures f.Ok? ==>
        var w := old(Copied());
        && (forall i :: 0 <= i < w.Count() ==>
              Vec(out[..], i, w.Count(), w.dim) == Owed(model.desc, model.device.encode, w, i))
        && h2d == |w.ids| * (model.desc.RowsBytes() + model.desc.BiasBytes())
        && d2h == |w.ids| * model.desc.StatesBytes()
      // That is, pooled from its own tokens, cut, and of length 1 when
      // normalized.
      ensures f.Ok? ==>
        var w := old(Copied());
        forall i :: 0 <= i < w.Count() ==>
          var states, u := StatesOf(model.desc, model.device.encode, w, w.RowOf(i)), Vec(out[..], i, w.Count(), w.dim);
          Delivers(model.desc, w, i, states, u) && IsUnit(model.desc, w, i, states, u)
      ensures old(written) ==>
        Past(out[..], old(Copied().Count()), dim) == Past(old(out[..]), old(Copied().Count()), dim)
      // A device that stopped answering costs a run one wait: the session's
      // timeout for a frame that still runs, FRAME_TIMEOUT for a full queue.
      ensures model.device.waited == old(model.device.waited) + Cost(f, frameTimeout)
      ensures f == Runtime(Late) ==> Waiting()
      // One that ends no frame costs it the session's timeout.
      ensures model.device.Stuck() && old(written) && old(batch) > 0 ==> f == Runtime(Late)
    {
      hide Stepped, MidRun, FramesOf, Delivered, LinesOf, SlotsOk, Task.Valid, Device.Valid, Vec, Owed, Past;
      hide Delivers, IsUnit, StatesOf;
      h2d, d2h, pooled := 0, 0, [];
      ghost var mem0, jobs0, mine := model.device.mem, model.device.jobs, FramesOf(slots);
      StandingStill(mem0, jobs0, mine);
      if broken != "" || !written {
        return InvalidState, 0, 0, [];
      }
      ghost var w := Copied();
      written := false;
      MidRunStarts(model.desc, model.device.encode, w, mem0, jobs0, slots);
      NothingDelivered(model.desc, model.device.encode, w, out[..]);
      f, h2d, d2h, pooled := SendAll(out, w);
      if f.Ok? {
        ghost var mem1, jobs1, was := model.device.mem, model.device.jobs, |pooled|;
        var more;
        f, more, pooled := Drain(out, w, pooled);
        StepsCompose(mem0, jobs0, mem1, jobs1, model.device.mem, model.device.jobs, mine);
        SumsUp(was, |pooled|, model.desc.StatesBytes());
        d2h := d2h + more;
      }
      if f.Ok? {
        Everything(model.desc, model.device.encode, w, model.device.mem, model.device.jobs, slots, pooled, out[..]);
        AllDelivered(model.desc, model.device.encode, w, out[..]);
      }
    }

    /** ~Session: waits for each frame still in flight until one does not come
        back, hands what did not to the model, and frees the rest. */
    method Release()
      requires Owns()
      modifies this`slots
      modifies model`retired, model`retiredCount, model`handed, model`freed
      modifies model.device`turn, model.device`mem, model.device`jobs, model.device`waited
      ensures model.Valid() && slots == []
      // The device may be waited for once, and only by a session that no
      // frame has failed yet.
      ensures old(model.device.waited) <= model.device.waited
      ensures model.device.waited <= old(model.device.waited) + (if broken == "" then frameTimeout else 0)
      ensures (forall s :: s in old(slots) ==> !s.busy) ==>
        model.device.waited == old(model.device.waited) && FramesOf(model.retired) <= FramesOf(old(model.retired))
      // Its frames are freed, but for those the model keeps.
      ensures FramesOf(model.retired) <= FramesOf(old(model.retired)) + FramesOf(old(slots))
      ensures model.device.mem.Keys ==
        old(model.device.mem).Keys - (FramesOf(old(model.retired)) + FramesOf(old(slots))) + FramesOf(model.retired)
      ensures Stepped(old(model.device.mem), old(model.device.jobs), model.device.mem, model.device.jobs,
                      FramesOf(old(model.retired)) + FramesOf(old(slots)))
    {
      hide Stepped, SlotOk, Separate, SlotsOk, AllIdle, FramesOf, Disjoint;
      ghost var mine := FramesOf(model.retired) + FramesOf(slots);
      ghost var mem0, jobs0 := model.device.mem, model.device.jobs;
      var freeing := Part();
      ghost var mem1, jobs1 := model.device.mem, model.device.jobs;
      ghost var held := FramesOf(model.retired);
      model.Reap();
      ghost var mem2, jobs2 := model.device.mem, model.device.jobs;
      FramesAllocated(model.desc, mem2, jobs2, model.retired);
      IdleKept(model.desc, mem1, jobs1, mem2, jobs2, held, freeing);
      FreeSlots(model.device, model.desc, freeing);
      StepGrows(mem0, jobs0, mem1, jobs1, {}, mine);
      StepGrows(mem1, jobs1, mem2, jobs2, held, mine);
      StepsCompose(mem0, jobs0, mem1, jobs1, mem2, jobs2, mine);
      FreeStep(mem0, jobs0, mem2, jobs2, mine, FramesOf(freeing));
      FreeLeavesKept(model.desc, mem2, jobs2, FramesOf(freeing), model.retired);
    }

    /** Splits the ring: what the host may free, and what goes to the model. */
    method Part() returns (freeing: seq<Slot>)
      requires Owns()
      modifies this`slots
      modifies model`retired, model`retiredCount, model`handed
      modifies model.device`turn, model.device`mem, model.device`jobs, model.device`waited
      ensures model.Valid() && slots == []
      ensures old(model.device.waited) <= model.device.waited
      ensures model.device.waited <= old(model.device.waited) + (if broken == "" then frameTimeout else 0)
      ensures (forall s :: s in old(slots) ==> !s.busy) ==>
        model.device.waited == old(model.device.waited) && model.retired == old(model.retired)
      ensures AllIdle(model.desc, model.device.mem, model.device.jobs, freeing)
      ensures FramesOf(freeing) !! FramesOf(model.retired)
      ensures FramesOf(freeing) + FramesOf(model.retired) == FramesOf(old(model.retired)) + FramesOf(old(slots))
      ensures FramesOf(old(model.retired)) <= FramesOf(model.retired)
      ensures Stepped(old(model.device.mem), old(model.device.jobs), model.device.mem, model.device.jobs, {})
      ensures model.device.mem.Keys == old(model.device.mem).Keys
    {
      hide Stepped, SlotOk, Sifted, Progress, Separate, FramesOf, Disjoint;
      var timeout: nat := if broken == "" then frameTimeout else 0;
      ghost var budget := model.device.waited + timeout;
      ghost var moved: seq<Slot>, kept := [], model.retired;
      ghost var mem0, jobs0 := model.device.mem, model.device.jobs;
      freeing := [];
      StandingStill(mem0, jobs0, {});
      SiftNone();
      assert slots[..0] == [] && kept + [] == kept;
      for i := 0 to |slots|
        invariant model.Valid() && model.retired == kept + moved
        invariant slots == old(slots) && SlotsOk(model.desc, model.device.mem, model.device.jobs, slots)
        invariant Stepped(mem0, jobs0, model.device.mem, model.device.jobs, {})
        invariant model.device.mem.Keys == mem0.Keys
        invariant Sifted(freeing, moved, slots[..i]) && Back(model.device.jobs, freeing)
        invariant old(model.device.waited) <= model.device.waited && model.device.waited + timeout <= budget
        invariant (forall s :: s in slots ==> !s.busy) ==>
          model.device.waited == old(model.device.waited) && moved == []
      {
        var s := slots[i];
        if !s.busy {
          SiftInto(freeing, moved, slots, i);
          freeing := freeing + [s];
          continue;
        }
        ghost var mem1, jobs1 := model.device.mem, model.device.jobs;
        assert s in slots;
        BusyHasAJob(model.desc, mem1, jobs1, s);
        var status := model.device.Wait(s.job, timeout);
        PollKeeps(model.device.encode, model.desc, mem0, jobs0, mem1, jobs1, model.device.mem, model.device.jobs,
          slots, []);
        PollKeeps(model.device.encode, model.desc, mem0, jobs0, mem1, jobs1, model.device.mem, model.device.jobs,
          model.retired, []);
        BackStays(model.device.encode, mem1, jobs1, model.device.mem, model.device.jobs, freeing);
        if status.Success? {
          SiftInto(freeing, moved, slots, i);
          freeing := freeing + [s];
          continue;
        }
        timeout := 0;
        HandedIsApart(slots, i, kept, freeing, moved);
        model.Retire(s);
        SiftedEitherWay(freeing, moved, slots[..i]);
        SiftInto(moved, freeing, slots, i);
        SiftedEitherWay(moved + [s], freeing, slots[..i + 1]);
        moved := moved + [s];
      }
      assert slots[..|slots|] == slots;
      Parted(model.desc, model.device.mem, model.device.jobs, slots, freeing, moved, kept);
      slots := [];
    }
  }

  /** Writing line b leaves the lines before it. */
  lemma LineWritten(a: seq<int>, a': seq<int>, b: nat, lines: nat, stride: nat, len: nat, line: seq<int>)
    requires |a| == lines * stride && b < lines && len <= stride && |line| == len
    requires b * stride + len <= |a| && a' == a[..b * stride] + line + a[b * stride + len..]
    ensures |a'| == |a| && LineOf(a', b, lines, stride, len) == line
    ensures forall i :: 0 <= i < b ==> LineOf(a', i, lines, stride, len) == LineOf(a, i, lines, stride, len)
  {
    LineFits(b, lines, stride, len);
    forall i | 0 <= i < b
      ensures LineOf(a', i, lines, stride, len) == LineOf(a, i, lines, stride, len)
    {
      LineFits(i, lines, stride, len);
      LineFits(i, b, stride, stride);
    }
  }

  lemma TaskIsValid(d: Desc, r: Rows, maxBatch: nat, maxSeq: nat)
    requires d.Valid() && r.Valid(d, maxBatch, maxSeq) && maxSeq <= d.frame
    ensures r.AsTask().Valid(d)
  {
    forall b | 0 <= b < r.batch
      ensures IdsIn(d, LineOf(r.ids, b, r.batch, r.stride, r.seqLen))
    {
      LineFits(b, r.batch, r.stride, r.seqLen);
    }
  }

  /** What a write copies: each row's ids and mask where the caller's
      rows have them, and everything else as it was given. */
  lemma TaskHolds(d: Desc, r: Rows, maxBatch: nat, maxSeq: nat, b: nat, t: nat)
    requires d.Valid() && r.Valid(d, maxBatch, maxSeq) && b < r.batch && t < r.seqLen
    ensures var w := r.AsTask();
      && |w.ids| == |w.mask| == r.batch && |w.ids[b]| == |w.mask[b]| == r.seqLen == w.len
      && 0 <= b * r.stride + t < |r.ids|
      && w.ids[b][t] == r.ids[b * r.stride + t] && w.mask[b][t] == r.mask[b * r.stride + t]
      && w.pooling == r.pooling && w.normalize == r.normalize && w.dim == r.dim && !w.byRanges && w.ranges == []
  {
    LineFits(b, r.batch, r.stride, r.seqLen);
  }

  lemma LinesAt(a: seq<int>, batch: nat, lines: nat, stride: nat, len: nat, b: nat)
    requires |a| == lines * stride && batch <= lines && len <= stride && b < batch
    ensures LinesOf(a, batch, lines, stride, len)[b] == LineOf(a, b, lines, stride, len)
  {
  }

  ghost predicate Delivered(d: Desc, encode: Encoder, w: Task, out: seq<real>, pooled: seq<nat>)
    requires w.Valid(d) && w.Count() * w.dim <= |out|
  {
    forall i :: 0 <= i < w.Count() && w.RowOf(i) in pooled ==> Vec(out, i, w.Count(), w.dim) == Owed(d, encode, w, i)
  }

  lemma DeliveredMore(d: Desc, encode: Encoder, w: Task, out: seq<real>, out': seq<real>, pooled: seq<nat>, row: nat)
    requires w.Valid(d) && |out| == |out'| && w.Count() * w.dim <= |out| && Delivered(d, encode, w, out, pooled)
    requires forall i :: 0 <= i < w.Count() ==>
      Vec(out', i, w.Count(), w.dim) ==
      if w.RowOf(i) == row then Owed(d, encode, w, i) else Vec(out, i, w.Count(), w.dim)
    ensures Delivered(d, encode, w, out', pooled + [row])
  {
  }

  /** While the device works, every slot stays whose it is. */
  lemma DeviceKeeps(encode: Encoder, d: Desc, mem0: Memory, jobs0: seq<Job>, mem: Memory, jobs: seq<Job>,
                    slots: seq<Slot>, retired: seq<Slot>)
    requires Progress(encode, mem0, jobs0, mem, jobs)
    requires SlotsOk(d, mem0, jobs0, slots) && SlotsOk(d, mem0, jobs0, retired)
    ensures Stepped(mem0, jobs0, mem, jobs, FramesOf(slots)) && mem.Keys == mem0.Keys
    ensures SlotsOk(d, mem, jobs, slots) && SlotsOk(d, mem, jobs, retired)
  {
    ProgressIsAStep(encode, mem0, jobs0, mem, jobs, FramesOf(slots));
    ProgressIsAStep(encode, mem0, jobs0, mem, jobs, {});
    SlotsKept(d, mem0, jobs0, mem, jobs, {}, slots);
    SlotsKept(d, mem0, jobs0, mem, jobs, {}, retired);
  }

  lemma NothingDelivered(d: Desc, encode: Encoder, w: Task, out: seq<real>)
    requires w.Valid(d) && w.Count() * w.dim <= |out|
    ensures Delivered(d, encode, w, out, [])
  {
  }

  lemma SumsUp(a: int, b: int, m: int)
    ensures a * m + (b - a) * m == b * m
  {
  }

  /** Once the ring is empty every row was pooled, so every vector is in out. */
  lemma Everything(d: Desc, encode: Encoder, w: Task, mem: Memory, jobs: seq<Job>, slots: seq<Slot>, pooled: seq<nat>,
                   out: seq<real>)
    requires w.Valid(d) && MidRun(d, encode, w, |w.ids|, pooled, mem, jobs, slots)
    requires forall k :: 0 <= k < |slots| ==> !slots[k].busy
    requires w.Count() * w.dim <= |out| && Delivered(d, encode, w, out, pooled)
    ensures |pooled| == |w.ids| && forall b: nat :: b in pooled <==> b < |w.ids|
    ensures forall i :: 0 <= i < w.Count() ==> Vec(out, i, w.Count(), w.dim) == Owed(d, encode, w, i)
  {
    AllBack(slots, |w.ids|, pooled);
    forall i | 0 <= i < w.Count()
      ensures w.RowOf(i) in pooled
    {
      assert w.byRanges ==> w.RangeOk(w.ranges[i]);
    }
  }

  lemma AllDelivered(d: Desc, encode: Encoder, w: Task, out: seq<real>)
    requires w.Valid(d) && w.Count() * w.dim <= |out|
    requires forall i :: 0 <= i < w.Count() ==> Vec(out, i, w.Count(), w.dim) == Owed(d, encode, w, i)
    ensures forall i :: 0 <= i < w.Count() ==>
      var states, u := StatesOf(d, encode, w, w.RowOf(i)), Vec(out, i, w.Count(), w.dim);
      Delivers(d, w, i, states, u) && IsUnit(d, w, i, states, u)
  {
    hide Owed, Vec, StatesOf, Delivers, IsUnit;
    forall i | 0 <= i < w.Count()
      ensures var states, u := StatesOf(d, encode, w, w.RowOf(i)), Vec(out, i, w.Count(), w.dim);
        Delivers(d, w, i, states, u) && IsUnit(d, w, i, states, u)
    {
      OwedIsDelivered(d, encode, w, i);
    }
  }

  /** Each of the slots is free of the device. */
  ghost predicate Back(jobs: seq<Job>, slots: seq<Slot>) {
    forall s :: s in slots ==> !s.busy || (s.job < |jobs| && !jobs[s.job].state.Running?)
  }

  lemma BackStays(encode: Encoder, mem0: Memory, jobs0: seq<Job>, mem: Memory, jobs: seq<Job>, slots: seq<Slot>)
    requires Progress(encode, mem0, jobs0, mem, jobs) && Back(jobs0, slots)
    ensures Back(jobs, slots)
  {
  }

  /** The slot handed over is apart from all the model has. */
  lemma HandedIsApart(slots: seq<Slot>, i: nat, kept: seq<Slot>, freeing: seq<Slot>, moved: seq<Slot>)
    requires i < |slots| && Disjoint(slots) && FramesOf(slots) !! FramesOf(kept)
    requires Sifted(freeing, moved, slots[..i])
    ensures slots[i].Frames() !! FramesOf(kept + moved)
  {
    FramesOfConcat(kept, moved);
    FramesWithin(slots, i);
    LaterIsApart(slots, i);
  }

  lemma Parted(d: Desc, mem: Memory, jobs: seq<Job>, slots: seq<Slot>, freeing: seq<Slot>, moved: seq<Slot>,
               kept: seq<Slot>)
    requires SlotsOk(d, mem, jobs, slots) && Sifted(freeing, moved, slots) && Back(jobs, freeing)
    requires FramesOf(slots) !! FramesOf(kept)
    ensures AllIdle(d, mem, jobs, freeing)
    ensures FramesOf(freeing) !! FramesOf(kept + moved)
    ensures FramesOf(freeing) + FramesOf(kept + moved) == FramesOf(kept) + FramesOf(slots)
    ensures FramesOf(kept) <= FramesOf(kept + moved)
  {
    FramesOfConcat(kept, moved);
    SiftedOk(d, mem, jobs, slots, freeing, moved);
    assert forall i :: 0 <= i < |freeing| ==> freeing[i] in freeing;
  }
}
