/** core/hailo/embed.cpp's Model: the frame sets a released session left with
    the device, kept until their jobs end. */
module HailoModel {
  import opened HailoFrames
  import opened HailoDevice
  import opened HailoSlots

  class Model {
    const device: Device
    const desc: Desc
    const burst: nat
    const queue: nat

    var retired: seq<Slot>
    var retiredCount: nat
    // What became of the frame sets handed to the model, and the frames of
    // those still running when it went.
    ghost var handed: nat
    ghost var freed: nat
    ghost var leaked: set<Addr>

    constructor (device: Device, desc: Desc, burst: nat, queue: nat)
      requires device.Valid() && desc.Valid()
      ensures Valid() && retired == [] && handed == 0 && leaked == {}
      ensures this.device == device && this.desc == desc
    {
      this.device, this.desc, this.burst, this.queue := device, desc, burst, queue;
      retired, retiredCount := [], 0;
      handed, freed, leaked := 0, 0, {};
    }

    ghost predicate Valid()
      reads this, device
    {
      && device.Valid() && desc.Valid()
      && SlotsOk(desc, device.mem, device.jobs, retired)
      && (forall i :: 0 <= i < |retired| ==> retired[i].busy)
      && retiredCount == |retired| == handed - freed
    }

    /** Keeps a frame set whose frame had not come back. */
    method Retire(slot: Slot)
      requires Valid() && slot.busy
      requires SlotOk(desc, device.mem, device.jobs, slot) && slot.Frames() !! FramesOf(retired)
      modifies this`retired, this`retiredCount, this`handed
      ensures Valid() && retired == old(retired) + [slot] && handed == old(handed) + 1
    {
      AppendDisjoint(retired, slot);
      retired := retired + [slot];
      retiredCount := retiredCount + 1;
      handed := handed + 1;
    }

    /** Polls each kept job once: those that still run, and those that ended. */
    method Sift() returns (kept: seq<Slot>, gone: seq<Slot>)
      requires Valid()
      modifies device`turn, device`mem, device`jobs, device`waited
      ensures device.Valid() && device.waited == old(device.waited)
      ensures device.mem.Keys == old(device.mem).Keys
      ensures Stepped(old(device.mem), old(device.jobs), device.mem, device.jobs, {})
      ensures SlotsOk(desc, device.mem, device.jobs, retired)
      ensures Sifted(kept, gone, retired) && AllEnded(device.jobs, gone)
      ensures forall s :: s in kept ==> RunningAt(old(device.jobs), s.job)
    {
      hide Stepped, SlotOk, Sifted, Progress, Separate;
      kept, gone := [], [];
      ghost var mem0, jobs0 := device.mem, device.jobs;
      StandingStill(mem0, jobs0, {});
      assert Sifted([], [], retired[..0]) by {
        SiftNone();
      }
      for i := 0 to |retired|
        invariant device.Valid() && device.waited == old(device.waited)
        invariant device.mem.Keys == mem0.Keys
        invariant Stepped(mem0, jobs0, device.mem, device.jobs, {})
        invariant SlotsOk(desc, device.mem, device.jobs, retired)
        invariant Sifted(kept, gone, retired[..i])
        invariant AllEnded(device.jobs, gone)
        invariant forall s :: s in kept ==> RunningAt(jobs0, s.job)
      {
        ghost var mem1, jobs1 := device.mem, device.jobs;
        BusyHasAJob(desc, mem0, jobs0, retired[i]);
        BusyHasAJob(desc, mem1, jobs1, retired[i]);
        var status := device.Wait(retired[i].job, 0);
        PollKeeps(device.encode, desc, mem0, jobs0, mem1, jobs1, device.mem, device.jobs, retired, gone);
        if status.TimedOut? {
          RunningSince(mem0, jobs0, device.mem, device.jobs, retired[i].job);
          SiftInto(kept, gone, retired, i);
          kept := kept + [retired[i]];
        } else {
          SiftedEitherWay(kept, gone, retired[..i]);
          SiftInto(gone, kept, retired, i);
          SiftedEitherWay(gone + [retired[i]], kept, retired[..i + 1]);
          gone := gone + [retired[i]];
        }
      }
      assert retired[..|retired|] == retired;
    }

    /** Frees each kept frame set whose job has ended, by success or by
        failure, and no other. */
    method Reap()
      requires Valid()
      modifies this`retired, this`retiredCount, this`freed
      modifies device`turn, device`mem, device`jobs, device`waited
      ensures Valid() && device.waited == old(device.waited)
      ensures FramesOf(retired) <= FramesOf(old(retired))
      ensures device.mem.Keys == old(device.mem.Keys) - (FramesOf(old(retired)) - FramesOf(retired))
      ensures Stepped(old(device.mem), old(device.jobs), device.mem, device.jobs, FramesOf(old(retired)))
      ensures forall s :: s in retired ==> s in old(retired)
      ensures forall s :: s in old(retired) && s !in retired ==>
        s.job < |device.jobs| && !device.jobs[s.job].state.Running?
      ensures forall s :: s in retired ==> RunningAt(old(device.jobs), s.job)
      ensures freed - old(freed) == |old(retired)| - |retired|
    {
      hide Stepped, SlotOk, Separate, SlotsOk;
      var kept, gone := Sift();
      ghost var mem1, jobs1 := device.mem, device.jobs;
      SiftedOk(desc, mem1, jobs1, retired, kept, gone);
      FreeSlots(device, desc, gone);
      StepGrows(old(device.mem), old(device.jobs), mem1, jobs1, {}, FramesOf(retired));
      FreeStep(old(device.mem), old(device.jobs), mem1, jobs1, FramesOf(retired), FramesOf(gone));
      FreeKeeps(desc, mem1, jobs1, FramesOf(gone), kept);
      retiredCount := retiredCount - |gone|;
      freed := freed + |gone|;
      retired := kept;
    }

    /** ~Model: reaps, and leaves allocated what the device may still own. */
    method Release()
      requires Valid() && leaked == {}
      modifies this`retired, this`retiredCount, this`freed, this`leaked
      modifies device`turn, device`mem, device`jobs, device`waited
      ensures device.Valid() && device.waited == old(device.waited) && retired == []
      // What is left was a running job's when the model began its last poll.
      ensures forall a :: a in leaked ==> Owned(old(device.jobs), a)
      ensures forall a :: a in leaked ==>
        exists s :: s in old(retired) && a in s.Frames() && RunningAt(old(device.jobs), s.job)
      // The count keeps what was never freed.
      ensures retiredCount == handed - freed
      ensures leaked <= FramesOf(old(retired)) && leaked <= device.mem.Keys
      ensures device.mem.Keys == old(device.mem.Keys) - (FramesOf(old(retired)) - leaked)
      ensures Stepped(old(device.mem), old(device.jobs), device.mem, device.jobs, FramesOf(old(retired)))
    {
      hide Stepped, SlotOk, Separate, FramesOf, Disjoint, Owned;
      ghost var mem0, jobs0, retired0 := device.mem, device.jobs, retired;
      Reap();
      FramesAllocated(desc, device.mem, device.jobs, retired);
      leaked := FramesOf(retired);
      LeftWereRunning(desc, mem0, jobs0, retired0, retired);
      retired := [];
    }
  }

  lemma LeftWereRunning(d: Desc, mem0: Memory, jobs0: seq<Job>, retired0: seq<Slot>, retired: seq<Slot>)
    requires SlotsOk(d, mem0, jobs0, retired0) && forall i :: 0 <= i < |retired0| ==> retired0[i].busy
    requires forall s :: s in retired ==> s in retired0 && RunningAt(jobs0, s.job)
    ensures forall a :: a in FramesOf(retired) ==>
      Owned(jobs0, a) && exists s :: s in retired0 && a in s.Frames() && RunningAt(jobs0, s.job)
  {
    forall a | a in FramesOf(retired)
      ensures Owned(jobs0, a) && exists s :: s in retired0 && a in s.Frames() && RunningAt(jobs0, s.job)
    {
      FramesOfHas(retired, a);
      var i :| 0 <= i < |retired| && a in retired[i].Frames();
      assert retired[i] in retired;
      var j :| 0 <= j < |retired0| && retired0[j] == retired[i];
      assert SlotOk(d, mem0, jobs0, retired0[j]);
      assert a in jobs0[retired[i].job].Frames();
    }
  }

  ghost predicate AllEnded(jobs: seq<Job>, slots: seq<Slot>) {
    forall s :: s in slots ==> s.job < |jobs| && !jobs[s.job].state.Running?
  }

  /** kept and gone share out the slots. */
  ghost predicate Sifted(kept: seq<Slot>, gone: seq<Slot>, slots: seq<Slot>) {
    && |kept| + |gone| == |slots|
    && Disjoint(kept) && Disjoint(gone) && FramesOf(kept) !! FramesOf(gone)
    && FramesOf(kept) + FramesOf(gone) == FramesOf(slots)
    && (forall s :: s in slots <==> s in kept || s in gone)
  }

  lemma RunningSince(mem0: Memory, jobs0: seq<Job>, mem: Memory, jobs: seq<Job>, j: nat)
    requires Stepped(mem0, jobs0, mem, jobs, {}) && RunningAt(jobs, j) && j < |jobs0|
    ensures RunningAt(jobs0, j)
  {
  }

  lemma SiftNone()
    ensures Sifted([], [], [])
  {
  }

  lemma SiftedEitherWay(kept: seq<Slot>, gone: seq<Slot>, slots: seq<Slot>)
    requires Sifted(kept, gone, slots)
    ensures Sifted(gone, kept, slots)
  {
  }

  lemma BusyHasAJob(d: Desc, mem: Memory, jobs: seq<Job>, s: Slot)
    requires SlotOk(d, mem, jobs, s) && s.busy
    ensures s.job < |jobs|
  {
  }

  lemma SiftInto(kept: seq<Slot>, gone: seq<Slot>, all: seq<Slot>, i: nat)
    requires i < |all| && Disjoint(all) && Sifted(kept, gone, all[..i])
    ensures Sifted(kept + [all[i]], gone, all[..i + 1])
  {
    hide Disjoint, FramesOf;
    var s := all[i];
    assert s.Frames() !! FramesOf(kept) + FramesOf(gone) by {
      LaterIsApart(all, i);
    }
    AppendDisjoint(kept, s);
    FramesOfAppend(kept, s);
    FramesOfSplit(all, i);
    assert all[..i + 1] == all[..i] + [s];
  }

  /** Polling a job changes nothing of whose the slots are. */
  lemma PollKeeps(encode: Encoder, d: Desc, mem0: Memory, jobs0: seq<Job>, mem1: Memory, jobs1: seq<Job>,
                  mem: Memory, jobs: seq<Job>, slots: seq<Slot>, gone: seq<Slot>)
    requires Stepped(mem0, jobs0, mem1, jobs1, {}) && Progress(encode, mem1, jobs1, mem, jobs)
    requires SlotsOk(d, mem1, jobs1, slots) && AllEnded(jobs1, gone)
    ensures Stepped(mem0, jobs0, mem, jobs, {})
    ensures SlotsOk(d, mem, jobs, slots) && AllEnded(jobs, gone)
  {
    ProgressIsAStep(encode, mem1, jobs1, mem, jobs, {});
    StepsCompose(mem0, jobs0, mem1, jobs1, mem, jobs, {});
    SlotsKept(d, mem1, jobs1, mem, jobs, {}, slots);
  }

  lemma SiftedOk(d: Desc, mem: Memory, jobs: seq<Job>, slots: seq<Slot>, kept: seq<Slot>, gone: seq<Slot>)
    requires SlotsOk(d, mem, jobs, slots) && Sifted(kept, gone, slots)
    ensures forall i :: 0 <= i < |kept| ==> kept[i] in slots && SlotOk(d, mem, jobs, kept[i])
    ensures AllEnded(jobs, gone) ==> AllIdle(d, mem, jobs, gone)
  {
    assert forall s :: s in slots ==> SlotOk(d, mem, jobs, s);
    assert forall i :: 0 <= i < |kept| ==> kept[i] in kept;
    assert forall i :: 0 <= i < |gone| ==> gone[i] in gone;
  }

  /** Freeing frames is a step of whoever owns them. */
  lemma FreeStep(mem0: Memory, jobs0: seq<Job>, mem: Memory, jobs: seq<Job>, mine: set<Addr>, gone: set<Addr>)
    requires Stepped(mem0, jobs0, mem, jobs, mine) && gone <= mine
    ensures Stepped(mem0, jobs0, mem - gone, jobs, mine)
  {
  }

  lemma FreeLeavesKept(d: Desc, mem: Memory, jobs: seq<Job>, gone: set<Addr>, slots: seq<Slot>)
    requires SlotsOk(d, mem, jobs, slots) && gone !! FramesOf(slots)
    ensures SlotsOk(d, mem - gone, jobs, slots)
  {
    FreeKeeps(d, mem, jobs, gone, slots);
  }

  lemma FreeKeeps(d: Desc, mem: Memory, jobs: seq<Job>, gone: set<Addr>, slots: seq<Slot>)
    requires Disjoint(slots) && gone !! FramesOf(slots)
    requires forall i :: 0 <= i < |slots| ==> SlotOk(d, mem, jobs, slots[i])
    ensures SlotsOk(d, mem - gone, jobs, slots)
  {
    forall i | 0 <= i < |slots|
      ensures SlotOk(d, mem - gone, jobs, slots[i])
    {
      FramesWithin(slots, i);
      assert slots[i].rows in slots[i].Frames() && slots[i].bias in slots[i].Frames()
        && slots[i].states in slots[i].Frames();
    }
  }
}
