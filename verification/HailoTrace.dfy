/** Every trace of calls on a model and its sessions, whatever the device
    does: the methods' preconditions hold at each call, which is to say that
    the host never writes, reads or frees a frame a running job owns, and in
    the end memory holds what was leaked and nothing else. */
module HailoTrace {
  import opened Arith
  import opened HailoFrames
  import opened HailoDevice
  import opened HailoSlots
  import opened HailoModel
  import opened HailoFill
  import opened HailoSession

  datatype Call =
    | Create(maxBatch: nat, maxSeq: nat, maxRanges: nat, timeout: Option<nat>)
    | Write(session: nat, rows: Rows)
    | WriteRanges(session: nat, rows: Rows, ranges: seq<Range>)
    | Run(session: nat)
    | Release(session: nat)

  /** The longest a wait may be. */
  ghost predicate Timeouts(calls: seq<Call>, longest: nat) {
    forall i :: 0 <= i < |calls| && calls[i].Create? && calls[i].timeout.Some? ==> calls[i].timeout.value <= longest
  }

  function Runs(calls: seq<Call>): nat {
    if calls == [] then 0 else Runs(calls[..|calls| - 1]) + (if calls[|calls| - 1].Run? then 1 else 0)
  }

  /** Sessions that share no object. */
  ghost predicate Apart(a: Session, b: Session) {
    a != b && a.ids != b.ids && a.ids != b.mask && a.mask != b.ids && a.mask != b.mask && a.sum != b.sum
  }

  function AllFrames(rings: seq<seq<Slot>>): set<Addr> {
    if rings == [] then {} else AllFrames(rings[..|rings| - 1]) + FramesOf(rings[|rings| - 1])
  }

  /** The rings of a model's sessions share no frame, with each other or with
      what the model keeps, and memory is theirs and the model's. */
  ghost predicate Shared(mem: Memory, rings: seq<seq<Slot>>, retired: seq<Slot>) {
    && (forall i, j :: 0 <= i < j < |rings| ==> FramesOf(rings[i]) !! FramesOf(rings[j]))
    && (forall i :: 0 <= i < |rings| ==> FramesOf(rings[i]) !! FramesOf(retired))
    && mem.Keys == AllFrames(rings) + FramesOf(retired)
  }

  /** The live sessions of a model, each valid between calls. */
  ghost predicate Live(model: Model, sessions: seq<Session>, rings: seq<seq<Slot>>, longest: nat)
    reads model, model.device, sessions, set s | s in sessions :: s.ids, set s | s in sessions :: s.mask
  {
    && model.Valid() && |rings| == |sessions|
    && (forall i :: 0 <= i < |sessions| ==>
          && sessions[i].model == model && sessions[i].Valid() && sessions[i].slots == rings[i]
          && sessions[i].frameTimeout <= longest)
    && (forall i, j :: 0 <= i < j < |sessions| ==> Apart(sessions[i], sessions[j]))
    && Shared(model.device.mem, rings, model.retired)
  }

  lemma {:induction false} InAllFrames(rings: seq<seq<Slot>>, i: nat)
    requires i < |rings|
    ensures FramesOf(rings[i]) <= AllFrames(rings)
  {
    if i < |rings| - 1 {
      InAllFrames(rings[..|rings| - 1], i);
    }
  }

  lemma AllFramesAppend(rings: seq<seq<Slot>>, ring: seq<Slot>)
    ensures AllFrames(rings + [ring]) == AllFrames(rings) + FramesOf(ring)
  {
    assert (rings + [ring])[..|rings|] == rings;
  }

  lemma {:induction false} AllFramesWithout(rings: seq<seq<Slot>>, k: nat)
    requires k < |rings|
    ensures AllFrames(rings) == AllFrames(rings[..k] + rings[k + 1..]) + FramesOf(rings[k])
  {
    hide FramesOf;
    var n := |rings| - 1;
    var rest := rings[..k] + rings[k + 1..];
    if k == n {
      assert rest == rings[..n];
    } else {
      var fore := rings[..n][..k] + rings[..n][k + 1..];
      AllFramesWithout(rings[..n], k);
      assert rest == fore + [rings[n]];
      AllFramesAppend(fore, rings[n]);
    }
  }

  lemma {:induction false} FramesApart(rings: seq<seq<Slot>>, frames: set<Addr>)
    requires forall i :: 0 <= i < |rings| ==> FramesOf(rings[i]) !! frames
    ensures AllFrames(rings) !! frames
  {
    if rings != [] {
      FramesApart(rings[..|rings| - 1], frames);
    }
  }

  lemma OthersSame(rings: seq<seq<Slot>>, k: nat, ring: seq<Slot>)
    requires k < |rings| && FramesOf(ring) == FramesOf(rings[k])
    ensures AllFrames(rings[k := ring]) == AllFrames(rings)
  {
    AllFramesWithout(rings, k);
    AllFramesWithout(rings[k := ring], k);
    assert rings[k := ring][..k] + rings[k := ring][k + 1..] == rings[..k] + rings[k + 1..];
  }

  /** run on session k. */
  method DoRun(model: Model, sessions: seq<Session>, k: nat, ghost rings: seq<seq<Slot>>, ghost longest: nat)
    returns (f: Failure, ghost rings': seq<seq<Slot>>)
    requires Live(model, sessions, rings, longest) && k < |sessions|
    modifies sessions[k], sessions[k].sum
    modifies model.device`turn, model.device`mem, model.device`jobs, model.device`waited
    ensures Live(model, sessions, rings', longest)
    ensures model.device.waited == old(model.device.waited) + Cost(f, sessions[k].frameTimeout)
    ensures sessions[k].frameTimeout <= longest
  {
    hide Stepped, SlotsOk, Vec, Owed, FramesOf, Session.Sound, AllFrames;
    var s := sessions[k];
    var out := Room(s);
    ghost var mem0, jobs0 := model.device.mem, model.device.jobs;
    var h2d, d2h; ghost var pooled;
    f, h2d, d2h, pooled := s.Run(out);
    rings' := rings[k := s.slots];
    OthersSame(rings, k, s.slots);
    OthersKept(model.desc, mem0, jobs0, model.device.mem, model.device.jobs, rings, k, FramesOf(rings[k]),
      model.retired);
    OthersApart(sessions, k);
  }

  /** write or write_ranges on session k, with rows the core has checked. */
  method DoWrite(model: Model, sessions: seq<Session>, k: nat, rows: Rows, ranges: Option<seq<Range>>,
                 ghost rings: seq<seq<Slot>>, ghost longest: nat)
    requires Live(model, sessions, rings, longest) && k < |sessions|
    requires rows.Valid(model.desc, sessions[k].maxBatch, sessions[k].maxSeq)
    modifies sessions[k], sessions[k].ids, sessions[k].mask
    ensures Live(model, sessions, rings, longest)
  {
    hide Stepped, SlotsOk, FramesOf, AllFrames, Rows.Typed, LinesOf, RangesOk;
    OthersApart(sessions, k);
    if ranges.Some? {
      var f := sessions[k].WriteRanges(rows, ranges.value);
    } else {
      var f := sessions[k].Write(rows);
    }
  }

  /** Making one more session. */
  method DoCreate(model: Model, sessions: seq<Session>, maxBatch: nat, maxSeq: nat, maxRanges: nat,
                  timeout: Option<nat>, ghost rings: seq<seq<Slot>>, ghost longest: nat, ghost objects: set<object>)
    returns (sessions': seq<Session>, ghost rings': seq<seq<Slot>>, ghost objects': set<object>)
    requires Live(model, sessions, rings, longest) && Within(sessions, objects)
    requires timeout.Some? ==> timeout.value <= longest
    modifies model`retired, model`retiredCount, model`handed, model`freed
    modifies model.device`turn, model.device`mem, model.device`jobs, model.device`waited, model.device`next
    ensures Live(model, sessions', rings', longest)
    ensures model.device.waited == old(model.device.waited)
    ensures Within(sessions', objects') && fresh(objects' - objects)
  {
    hide Stepped, SlotsOk, FramesOf, Session.Sound, AllFrames;
    ghost var mem0, jobs0, retired0 := model.device.mem, model.device.jobs, model.retired;
    var f, made := Session.Create(model, maxBatch, maxSeq, maxRanges, timeout);
    Outlived(model.desc, mem0, jobs0, model.device.mem, model.device.jobs, rings, retired0, model.retired);
    if made.None? {
      return sessions, rings, objects;
    }
    ghost var ring := made.value.slots;
    Joined(mem0, model.device.mem, rings, retired0, model.retired, ring);
    sessions', rings' := sessions + [made.value], rings + [ring];
    objects' := objects + {made.value, made.value.ids, made.value.mask, made.value.sum};
  }

  /** A call that claimed only what the model kept leaves the rings alone. */
  lemma Outlived(d: Desc, mem0: Memory, jobs0: seq<Job>, mem: Memory, jobs: seq<Job>, rings: seq<seq<Slot>>,
                 retired0: seq<Slot>, retired: seq<Slot>)
    requires Stepped(mem0, jobs0, mem, jobs, FramesOf(retired0)) && FramesOf(retired) <= FramesOf(retired0)
    requires Shared(mem0, rings, retired0) && forall i :: 0 <= i < |rings| ==> SlotsOk(d, mem0, jobs0, rings[i])
    ensures forall i :: 0 <= i < |rings| ==> SlotsOk(d, mem, jobs, rings[i])
    ensures forall i :: 0 <= i < |rings| ==> FramesOf(rings[i]) !! FramesOf(retired)
    ensures mem.Keys == mem0.Keys - (FramesOf(retired0) - FramesOf(retired)) ==> Shared(mem, rings, retired)
  {
    forall i | 0 <= i < |rings|
      ensures SlotsOk(d, mem, jobs, rings[i])
    {
      SlotsKept(d, mem0, jobs0, mem, jobs, FramesOf(retired0), rings[i]);
    }
    FramesApart(rings, FramesOf(retired0));
  }

  /** A new ring takes no frame of another. */
  lemma Joined(mem0: Memory, mem: Memory, rings: seq<seq<Slot>>, retired0: seq<Slot>, retired: seq<Slot>,
               ring: seq<Slot>)
    requires Shared(mem0, rings, retired0) && FramesOf(retired) <= FramesOf(retired0)
    requires FramesOf(ring) * mem0.Keys <= FramesOf(retired0) && FramesOf(ring) !! FramesOf(retired)
    requires mem.Keys == mem0.Keys - (FramesOf(retired0) - FramesOf(retired)) + FramesOf(ring)
    ensures Shared(mem, rings + [ring], retired)
  {
    hide FramesOf, AllFrames;
    var rings' := rings + [ring];
    AllFramesAppend(rings, ring);
    FramesApart(rings, FramesOf(retired0));
    forall i | 0 <= i < |rings|
      ensures FramesOf(rings[i]) !! FramesOf(ring)
    {
      InAllFrames(rings, i);
    }
  }

  /** Releasing session k. */
  method DoRelease(model: Model, sessions: seq<Session>, k: nat, ghost rings: seq<seq<Slot>>, ghost longest: nat)
    returns (sessions': seq<Session>, ghost rings': seq<seq<Slot>>)
    requires Live(model, sessions, rings, longest) && k < |sessions|
    modifies sessions[k]
    modifies model`retired, model`retiredCount, model`handed, model`freed
    modifies model.device`turn, model.device`mem, model.device`jobs, model.device`waited
    ensures Live(model, sessions', rings', longest)
    ensures sessions' == sessions[..k] + sessions[k + 1..]
    ensures model.device.waited == old(model.device.waited)
  {
    hide Stepped, SlotsOk, FramesOf, AllFrames;
    ghost var mem0, jobs0, retired0 := model.device.mem, model.device.jobs, model.retired;
    OthersApart(sessions, k);
    assert forall s :: s in sessions[k].slots ==> sessions[k].broken == "" ==> !s.busy;
    sessions[k].Release();
    sessions', rings' := sessions[..k] + sessions[k + 1..], rings[..k] + rings[k + 1..];
    Left(model.desc, mem0, jobs0, model.device.mem, model.device.jobs, rings, k, retired0, model.retired);
    forall i | 0 <= i < |sessions'|
      ensures sessions'[i].model == model && sessions'[i].Valid() && sessions'[i].slots == rings'[i]
      ensures sessions'[i].frameTimeout <= longest
    {
      var j := if i < k then i else i + 1;
      assert sessions'[i] == sessions[j] && rings'[i] == rings[j] && Apart(sessions[j], sessions[k]);
      assert sessions[j].Sound();
      assert SlotsOk(model.desc, model.device.mem, model.device.jobs, rings'[i]);
      assert FramesOf(rings'[i]) !! FramesOf(model.retired);
    }
  }

  /** What a released session leaves: the other rings, and its frames freed
      but for those the model keeps. */
  lemma Left(d: Desc, mem0: Memory, jobs0: seq<Job>, mem: Memory, jobs: seq<Job>, rings: seq<seq<Slot>>, k: nat,
             retired0: seq<Slot>, retired: seq<Slot>)
    requires k < |rings| && Stepped(mem0, jobs0, mem, jobs, FramesOf(retired0) + FramesOf(rings[k]))
    requires FramesOf(retired) <= FramesOf(retired0) + FramesOf(rings[k])
    requires Shared(mem0, rings, retired0) && forall i :: 0 <= i < |rings| ==> SlotsOk(d, mem0, jobs0, rings[i])
    requires mem.Keys == mem0.Keys - (FramesOf(retired0) + FramesOf(rings[k])) + FramesOf(retired)
    ensures var rings' := rings[..k] + rings[k + 1..];
      Shared(mem, rings', retired) && forall i :: 0 <= i < |rings'| ==> SlotsOk(d, mem, jobs, rings'[i])
  {
    hide Stepped, SlotsOk, FramesOf, AllFrames;
    var rings' := rings[..k] + rings[k + 1..];
    var mine := FramesOf(retired0) + FramesOf(rings[k]);
    assert forall i :: 0 <= i < |rings'| ==> rings'[i] == rings[if i < k then i else i + 1];
    forall i | 0 <= i < |rings'|
      ensures SlotsOk(d, mem, jobs, rings'[i])
    {
      var j := if i < k then i else i + 1;
      RingApart(mem0, rings, k, j, retired0);
      SlotsKept(d, mem0, jobs0, mem, jobs, mine, rings[j]);
    }
    forall i | 0 <= i < |rings'|
      ensures FramesOf(rings'[i]) !! mine
    {
      RingApart(mem0, rings, k, if i < k then i else i + 1, retired0);
    }
    AllFramesWithout(rings, k);
    FramesApart(rings', mine);
  }

  lemma RingApart(mem: Memory, rings: seq<seq<Slot>>, k: nat, j: nat, retired: seq<Slot>)
    requires Shared(mem, rings, retired) && k < |rings| && j < |rings| && j != k
    ensures FramesOf(rings[j]) !! FramesOf(retired) + FramesOf(rings[k])
  {
    assert if j < k then FramesOf(rings[j]) !! FramesOf(rings[k]) else FramesOf(rings[k]) !! FramesOf(rings[j]);
  }

  ghost predicate Within(sessions: seq<Session>, objects: set<object>) {
    forall i :: 0 <= i < |sessions| ==>
      sessions[i] in objects && sessions[i].ids in objects && sessions[i].mask in objects && sessions[i].sum in objects
  }

  /** One call. Rows the core would refuse never reach a session. */
  method Do(call: Call, model: Model, sessions: seq<Session>, ghost rings: seq<seq<Slot>>, ghost longest: nat,
            ghost objects: set<object>)
    returns (sessions': seq<Session>, ghost rings': seq<seq<Slot>>, ghost objects': set<object>)
    requires Live(model, sessions, rings, longest) && Timeouts([call], longest) && Within(sessions, objects)
    requires model !in objects && model.device !in objects
    modifies objects
    modifies model`retired, model`retiredCount, model`handed, model`freed
    modifies model.device`turn, model.device`mem, model.device`jobs, model.device`waited, model.device`next
    ensures Live(model, sessions', rings', longest)
    ensures Within(sessions', objects') && fresh(objects' - objects)
    ensures model !in objects' && model.device !in objects'
    ensures model.device.waited <= old(model.device.waited) + if call.Run? then Max(longest, FRAME_TIMEOUT) else 0
  {
    hide Live, Max, Shared;
    sessions', rings', objects' := sessions, rings, objects;
    match call {
      case Create(maxBatch, maxSeq, maxRanges, timeout) =>
        assert [call][0] == call;
        sessions', rings', objects' := DoCreate(model, sessions, maxBatch, maxSeq, maxRanges, timeout, rings, longest,
          objects);
      case Write(k, rows) =>
        if k < |sessions| && rows.Valid(model.desc, sessions[k].maxBatch, sessions[k].maxSeq) {
          DoWrite(model, sessions, k, rows, None, rings, longest);
        }
      case WriteRanges(k, rows, ranges) =>
        if k < |sessions| && rows.Valid(model.desc, sessions[k].maxBatch, sessions[k].maxSeq) {
          DoWrite(model, sessions, k, rows, Some(ranges), rings, longest);
        }
      case Run(k) =>
        if k < |sessions| {
          var f;
          f, rings' := DoRun(model, sessions, k, rings, longest);
          CostAtMost(f, sessions[k].frameTimeout, longest);
        }
      case Release(k) =>
        if k < |sessions| {
          sessions', rings' := DoRelease(model, sessions, k, rings, longest);
          assert forall i :: 0 <= i < |sessions'| ==> sessions'[i] == sessions[if i < k then i else i + 1];
        }
    }
  }

  /** Every session is released, and then the model. */
  method LetGo(model: Model, given: seq<Session>, ghost given': seq<seq<Slot>>, ghost longest: nat,
               ghost objects: set<object>)
    returns (ghost last: seq<Job>)
    requires Live(model, given, given', longest) && model.leaked == {}
    requires Within(given, objects) && model !in objects && model.device !in objects
    modifies objects
    modifies model`retired, model`retiredCount, model`handed, model`freed, model`leaked
    modifies model.device`turn, model.device`mem, model.device`jobs, model.device`waited
    ensures model.device.waited == old(model.device.waited) && model.retiredCount == model.handed - model.freed
    ensures model.device.mem.Keys == model.leaked
    ensures Kept(model.device.mem, last, model.device.jobs)
  {
    hide Stepped, SlotsOk, FramesOf, AllFrames, Live, Owned, Separate;
    var sessions := given;
    ghost var rings := given';
    while |sessions| > 0
      invariant Live(model, sessions, rings, longest) && model.leaked == {}
      invariant Within(sessions, objects)
      invariant model.device.waited == old(model.device.waited)
    {
      ghost var before := sessions;
      sessions, rings := DoRelease(model, sessions, 0, rings, longest);
      assert forall i :: 0 <= i < |sessions| ==> sessions[i] == before[i + 1];
    }
    AllReleased(model, rings, longest);
    last := model.device.jobs;
    ghost var mem0, mine := model.device.mem, FramesOf(model.retired);
    model.Release();
    LastIsKept(model.device, mem0, last, mine);
  }

  /** Memory when the model has gone: what is left was a running job's when
      the model began to go, and nothing a job still has was freed. */
  ghost predicate Kept(mem: Memory, last: seq<Job>, jobs: seq<Job>) {
    && (forall a :: a in mem ==> Owned(last, a))
    && (forall a :: Owned(jobs, a) ==> a in mem)
    && |last| <= |jobs| && (forall j :: 0 <= j < |last| && !last[j].state.Running? ==> jobs[j] == last[j])
  }

  lemma LastIsKept(device: Device, mem0: Memory, last: seq<Job>, mine: set<Addr>)
    requires device.Valid() && Stepped(mem0, last, device.mem, device.jobs, mine)
    requires forall a :: a in device.mem ==> Owned(last, a)
    ensures Kept(device.mem, last, device.jobs)
  {
  }

  /** Any calls, in any order, on any number of sessions of one model, on any
      device; then every session is released, and the model.

      Each method's preconditions were met at every call: no frame was
      written, read or freed while a running job owned it. Memory then holds
      what the model left to the device, and nothing else; the retired count
      is what was handed over and not reclaimed; and the host waited in vain
      at most once a run, and never in a release. `last` is the jobs as the
      model began to go. */
  method Trace(calls: seq<Call>, desc: Desc, burst: nat, queue: nat, ghost longest: nat,
               encode: Encoder, moves: nat -> seq<Move>, grants: nat -> bool, places: nat -> Addr)
    returns (device: Device, model: Model, ghost last: seq<Job>)
    requires desc.Valid() && Timeouts(calls, longest)
    ensures device.mem.Keys == model.leaked
    ensures Kept(device.mem, last, device.jobs)
    ensures model.retiredCount == model.handed - model.freed
    ensures device.waited <= Runs(calls) * Max(longest, FRAME_TIMEOUT)
  {
    hide SlotsOk, FramesOf, AllFrames, Live, Max, Kept, Separate;
    device := new Device(encode, moves, grants, places);
    model := new Model(device, desc, burst, queue);
    var sessions: seq<Session> := [];
    ghost var rings: seq<seq<Slot>>, objects: set<object> := [], {};
    NothingYet(model, longest);
    for i := 0 to |calls|
      invariant Live(model, sessions, rings, longest) && model.device == device && model.desc == desc
      invariant model.leaked == {} && fresh(model) && fresh(device)
      invariant Within(sessions, objects) && fresh(objects) && model !in objects && device !in objects
      invariant device.waited <= Runs(calls[..i]) * Max(longest, FRAME_TIMEOUT)
    {
      assert calls[..i + 1][..i] == calls[..i];
      Distribute(Runs(calls[..i]), Max(longest, FRAME_TIMEOUT));
      sessions, rings, objects := Do(calls[i], model, sessions, rings, longest, objects);
    }
    assert calls[..|calls|] == calls;
    last := LetGo(model, sessions, rings, longest, objects);
  }

  lemma CostAtMost(f: Failure, frameTimeout: nat, longest: nat)
    requires frameTimeout <= longest
    ensures Cost(f, frameTimeout) <= Max(longest, FRAME_TIMEOUT)
  {
  }

  /** A run ends within FRAME_TIMEOUT however it ends just when the session's
      own timeout is no longer than that. */
  lemma EveryCostIsWithinFrameTimeoutIff(frameTimeout: nat)
    ensures (forall f :: Cost(f, frameTimeout) <= FRAME_TIMEOUT) <==> frameTimeout <= 10000
  {
    assert Cost(Runtime(Late), frameTimeout) == frameTimeout;
  }

  /** And a run that ends so there is, for any timeout: one row on a device
      that ends no frame. */
  method LateRun(desc: Desc, burst: nat, queue: nat, encode: Encoder, places: nat -> Addr, timeout: nat)
    returns (device: Device, f: Failure)
    requires desc.Valid() && desc.vocab > 0 && desc.frame > 0
    ensures f == Runtime(Late) && device.waited == timeout
    ensures device.waited <= FRAME_TIMEOUT <==> timeout <= FRAME_TIMEOUT
  {
    hide Stepped, SlotsOk, FramesOf, LinesOf, Vec, Owed, Past, Device.Valid, RangesOk, Session.Sitting, Session.Waiting;
    device := new Device(encode, _ => [], _ => true, places);
    var model := new Model(device, desc, burst, queue);
    var created, made := Session.Create(model, 1, 1, 0, Some(timeout));
    var s := made.value;
    var written := s.Write(Rows(1, 1, 1, [0], [1], None, PoolMean, false, 0));
    var out := Room(s);
    var h2d, d2h;
    ghost var pooled;
    f, h2d, d2h, pooled := s.Run(out);
  }

  lemma NothingYet(model: Model, longest: nat)
    requires model.Valid() && model.retired == [] && model.device.mem == map[]
    ensures Live(model, [], [], longest)
  {
  }

  lemma AllReleased(model: Model, rings: seq<seq<Slot>>, longest: nat)
    requires Live(model, [], rings, longest)
    ensures model.Valid() && model.device.mem.Keys == FramesOf(model.retired)
  {
  }

  lemma OthersApart(sessions: seq<Session>, k: nat)
    requires k < |sessions| && forall i, j :: 0 <= i < j < |sessions| ==> Apart(sessions[i], sessions[j])
    ensures forall j :: 0 <= j < |sessions| && j != k ==> Apart(sessions[j], sessions[k])
  {
    forall j | 0 <= j < |sessions| && j != k
      ensures Apart(sessions[j], sessions[k])
    {
      assert if j < k then Apart(sessions[j], sessions[k]) else Apart(sessions[k], sessions[j]);
    }
  }

  /** The rings of the other sessions after a call that claimed only `mine`. */
  lemma OthersKept(d: Desc, mem0: Memory, jobs0: seq<Job>, mem: Memory, jobs: seq<Job>, rings: seq<seq<Slot>>, k: nat,
                   mine: set<Addr>, retired: seq<Slot>)
    requires Stepped(mem0, jobs0, mem, jobs, mine) && k < |rings|
    requires forall j :: 0 <= j < |rings| && j != k ==> SlotsOk(d, mem0, jobs0, rings[j]) && mine !! FramesOf(rings[j])
    ensures forall j :: 0 <= j < |rings| && j != k ==> SlotsOk(d, mem, jobs, rings[j])
  {
    forall j | 0 <= j < |rings| && j != k
      ensures SlotsOk(d, mem, jobs, rings[j])
    {
      SlotsKept(d, mem0, jobs0, mem, jobs, mine, rings[j]);
    }
  }

  /** Room for the vectors of the session's next run. */
  method Room(s: Session) returns (out: array<real>)
    requires s.Sound()
    ensures fresh(out) && (s.written ==> s.Copied().Count() * s.dim <= out.Length)
  {
    var n := if s.byRanges then |s.ranges| else s.batch;
    MulLe(0, n, s.dim);
    out := new real[n * s.dim];
  }
}
