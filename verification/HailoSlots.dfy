/** Frame sets of a session, who owns their memory, and what a step of the
    device or of the host leaves of that ownership. */
module HailoSlots {
  import opened HailoFrames
  import opened HailoDevice

  /** embed.h's Slot: three frames, the job running them, the row they hold. */
  datatype Slot = Slot(rows: Addr, bias: Addr, states: Addr, job: nat, busy: bool, row: nat) {
    function Frames(): set<Addr> { {rows, bias, states} }
    function AsJob(): Job { Job(rows, bias, states, Running) }
  }

  function FramesOf(slots: seq<Slot>): set<Addr> {
    if slots == [] then {} else FramesOf(slots[..|slots| - 1]) + slots[|slots| - 1].Frames()
  }

  lemma {:induction false} FramesOfHas(slots: seq<Slot>, a: Addr)
    ensures a in FramesOf(slots) <==> exists i :: 0 <= i < |slots| && a in slots[i].Frames()
  {
    if slots != [] {
      var n := |slots| - 1;
      FramesOfHas(slots[..n], a);
      if a in FramesOf(slots[..n]) {
        var i :| 0 <= i < n && a in slots[..n][i].Frames();
        assert a in slots[i].Frames();
      }
      if i :| 0 <= i < n && a in slots[i].Frames() {
        assert a in slots[..n][i].Frames();
      }
    }
  }

  lemma FramesWithin(slots: seq<Slot>, i: nat)
    requires i < |slots|
    ensures slots[i].Frames() <= FramesOf(slots)
  {
    forall a | a in slots[i].Frames()
      ensures a in FramesOf(slots)
    {
      FramesOfHas(slots, a);
    }
  }

  ghost predicate Disjoint(slots: seq<Slot>) {
    forall i, j :: 0 <= i < j < |slots| ==> slots[i].Frames() !! slots[j].Frames()
  }

  /** The slot's frames are allocated at their sizes, and no running job
      touches them but the slot's own, and that only while it is busy. */
  ghost predicate SlotOk(d: Desc, mem: Memory, jobs: seq<Job>, s: Slot) {
    && InMemory(mem, s.AsJob())
    && |mem[s.rows]| == d.RowsLen() && |mem[s.bias]| == d.BiasLen() && |mem[s.states]| == d.RowsLen()
    && (s.busy ==> s.job < |jobs| && jobs[s.job].(state := Running) == s.AsJob())
    && (forall j :: RunningAt(jobs, j) && !(jobs[j].Frames() !! s.Frames()) ==> s.busy && s.job == j)
  }

  ghost predicate SlotsOk(d: Desc, mem: Memory, jobs: seq<Job>, slots: seq<Slot>) {
    && Disjoint(slots)
    && forall i :: 0 <= i < |slots| ==> SlotOk(d, mem, jobs, slots[i])
  }

  /** From one state to a later one, the host has touched only frames of
      mine or new ones: every other frame is still allocated, and nothing
      but the device wrote it. */
  ghost predicate Stepped(mem0: Memory, jobs0: seq<Job>, mem: Memory, jobs: seq<Job>, mine: set<Addr>) {
    && |jobs0| <= |jobs|
    && (forall j :: 0 <= j < |jobs0| ==> jobs[j].(state := jobs0[j].state) == jobs0[j])
    && (forall j :: 0 <= j < |jobs0| && !jobs0[j].state.Running? ==> jobs[j] == jobs0[j])
    && (forall j, a :: |jobs0| <= j < |jobs| && a in jobs[j].Frames() ==> a in mine || a !in mem0)
    && (forall a :: a in mem0 && a !in mine ==> a in mem && |mem[a]| == |mem0[a]|)
    && (forall a :: a in mem0 && a !in mine && !Written(jobs0, a) ==> mem[a] == mem0[a])
  }

  /** Memory only grew. */
  lemma Grown(mem0: Memory, mem: Memory, jobs: seq<Job>)
    requires forall a :: a in mem0 ==> a in mem && mem[a] == mem0[a]
    ensures Stepped(mem0, jobs, mem, jobs, {})
  {
  }

  lemma StandingStill(mem: Memory, jobs: seq<Job>, mine: set<Addr>)
    ensures Stepped(mem, jobs, mem, jobs, mine)
  {
  }

  lemma ProgressIsAStep(encode: Encoder, mem0: Memory, jobs0: seq<Job>, mem: Memory, jobs: seq<Job>, mine: set<Addr>)
    requires Progress(encode, mem0, jobs0, mem, jobs)
    ensures Stepped(mem0, jobs0, mem, jobs, mine)
  {
  }

  lemma StepGrows(mem0: Memory, jobs0: seq<Job>, mem: Memory, jobs: seq<Job>, mine: set<Addr>, more: set<Addr>)
    requires Stepped(mem0, jobs0, mem, jobs, mine) && mine <= more
    ensures Stepped(mem0, jobs0, mem, jobs, more)
  {
  }

  lemma StepsCompose(mem0: Memory, jobs0: seq<Job>, mem1: Memory, jobs1: seq<Job>, mem: Memory, jobs: seq<Job>,
                     mine: set<Addr>)
    requires Stepped(mem0, jobs0, mem1, jobs1, mine)
    requires Stepped(mem1, jobs1, mem, jobs, mine)
    ensures Stepped(mem0, jobs0, mem, jobs, mine)
  {
    forall j, a | |jobs0| <= j < |jobs| && a in jobs[j].Frames()
      ensures a in mine || a !in mem0
    {
      if j < |jobs1| {
        assert a in jobs1[j].Frames();
      }
    }
    forall a | a in mem0 && a !in mine && !Written(jobs0, a)
      ensures mem[a] == mem0[a]
    {
      forall j | RunningAt(jobs1, j)
        ensures jobs1[j].states != a
      {
        if j < |jobs0| {
          assert RunningAt(jobs0, j);
        } else {
          assert jobs1[j].states in jobs1[j].Frames();
        }
      }
    }
  }

  /** What was allocated on the way and released again is no one's. */
  lemma StepsOverFresh(mem0: Memory, jobs0: seq<Job>, mem1: Memory, jobs1: seq<Job>, mem: Memory, jobs: seq<Job>,
                       mine: set<Addr>, news: set<Addr>)
    requires Stepped(mem0, jobs0, mem1, jobs1, {}) && news !! mem0.Keys
    requires Stepped(mem1, jobs1, mem, jobs, mine + news)
    ensures Stepped(mem0, jobs0, mem, jobs, mine)
  {
    StepGrows(mem0, jobs0, mem1, jobs1, {}, mine + news);
    StepsCompose(mem0, jobs0, mem1, jobs1, mem, jobs, mine + news);
  }

  /** A step keeps every slot whose frames it does not claim. */
  lemma SlotKept(d: Desc, mem0: Memory, jobs0: seq<Job>, mem: Memory, jobs: seq<Job>, mine: set<Addr>, s: Slot)
    requires Stepped(mem0, jobs0, mem, jobs, mine) && SlotOk(d, mem0, jobs0, s) && mine !! s.Frames()
    ensures SlotOk(d, mem, jobs, s)
  {
    assert s.rows in s.Frames() && s.bias in s.Frames() && s.states in s.Frames();
    forall j | RunningAt(jobs, j) && !(jobs[j].Frames() !! s.Frames())
      ensures s.busy && s.job == j
    {
      if j < |jobs0| {
        assert RunningAt(jobs0, j);
        assert jobs0[j].Frames() == jobs[j].Frames();
      }
    }
  }

  lemma SlotsKept(d: Desc, mem0: Memory, jobs0: seq<Job>, mem: Memory, jobs: seq<Job>, mine: set<Addr>,
                  slots: seq<Slot>)
    requires Stepped(mem0, jobs0, mem, jobs, mine) && SlotsOk(d, mem0, jobs0, slots) && mine !! FramesOf(slots)
    ensures SlotsOk(d, mem, jobs, slots)
  {
    forall i | 0 <= i < |slots|
      ensures SlotOk(d, mem, jobs, slots[i])
    {
      FramesWithin(slots, i);
      SlotKept(d, mem0, jobs0, mem, jobs, mine, slots[i]);
    }
  }

  /** A slot whose job has ended, or that has none, is the host's. */
  lemma EndedIsUnowned(d: Desc, mem: Memory, jobs: seq<Job>, s: Slot)
    requires SlotOk(d, mem, jobs, s)
    requires s.busy ==> !jobs[s.job].state.Running?
    ensures forall a :: a in s.Frames() ==> !Owned(jobs, a)
  {
    forall a | a in s.Frames()
      ensures !Owned(jobs, a)
    {
      forall j | RunningAt(jobs, j)
        ensures a !in jobs[j].Frames()
      {
      }
    }
  }

  lemma FramesOfSplit(slots: seq<Slot>, k: nat)
    requires k < |slots|
    ensures FramesOf(slots[..k + 1]) == FramesOf(slots[..k]) + slots[k].Frames()
  {
    assert slots[..k + 1][..k] == slots[..k];
  }

  lemma FramesOfAppend(slots: seq<Slot>, s: Slot)
    ensures FramesOf(slots + [s]) == FramesOf(slots) + s.Frames()
  {
    assert (slots + [s])[..|slots|] == slots;
  }

  lemma LaterIsApart(slots: seq<Slot>, k: nat)
    requires Disjoint(slots) && k < |slots|
    ensures slots[k].Frames() !! FramesOf(slots[..k])
  {
    forall a | a in FramesOf(slots[..k])
      ensures a !in slots[k].Frames()
    {
      FramesOfHas(slots[..k], a);
      var i :| 0 <= i < k && a in slots[..k][i].Frames();
      assert slots[i].Frames() !! slots[k].Frames();
    }
  }

  lemma AppendDisjoint(slots: seq<Slot>, s: Slot)
    requires Disjoint(slots) && s.Frames() !! FramesOf(slots)
    ensures Disjoint(slots + [s])
  {
    forall i | 0 <= i < |slots|
      ensures slots[i].Frames() !! s.Frames()
    {
      FramesWithin(slots, i);
    }
  }

  lemma FramesAllocated(d: Desc, mem: Memory, jobs: seq<Job>, slots: seq<Slot>)
    requires SlotsOk(d, mem, jobs, slots)
    ensures FramesOf(slots) <= mem.Keys
  {
    forall a | a in FramesOf(slots)
      ensures a in mem
    {
      FramesOfHas(slots, a);
      var i :| 0 <= i < |slots| && a in slots[i].Frames();
      assert SlotOk(d, mem, jobs, slots[i]);
    }
  }

  /** Nothing of the slot is the device's. */
  ghost predicate Ended(d: Desc, mem: Memory, jobs: seq<Job>, s: Slot) {
    SlotOk(d, mem, jobs, s) && (s.busy ==> !jobs[s.job].state.Running?)
  }

  ghost predicate AllIdle(d: Desc, mem: Memory, jobs: seq<Job>, slots: seq<Slot>) {
    Disjoint(slots) && forall i :: 0 <= i < |slots| ==> Ended(d, mem, jobs, slots[i])
  }

  lemma IdleKept(d: Desc, mem0: Memory, jobs0: seq<Job>, mem: Memory, jobs: seq<Job>, mine: set<Addr>, slots: seq<Slot>)
    requires Stepped(mem0, jobs0, mem, jobs, mine) && AllIdle(d, mem0, jobs0, slots) && mine !! FramesOf(slots)
    ensures AllIdle(d, mem, jobs, slots)
  {
    SlotsKept(d, mem0, jobs0, mem, jobs, mine, slots);
    forall i | 0 <= i < |slots|
      ensures Ended(d, mem, jobs, slots[i])
    {
      assert Ended(d, mem0, jobs0, slots[i]);
    }
  }

  lemma {:induction false} FramesOfConcat(a: seq<Slot>, b: seq<Slot>)
    ensures FramesOf(a + b) == FramesOf(a) + FramesOf(b)
  {
    if b == [] {
      assert a + b == a;
    } else {
      var n := |b| - 1;
      assert (a + b)[..|a| + n] == a + b[..n];
      FramesOfConcat(a, b[..n]);
    }
  }

  /** Destroys frame sets: their memory goes back to the allocator. */
  method FreeSlots(device: Device, d: Desc, slots: seq<Slot>)
    requires device.Valid() && AllIdle(d, device.mem, device.jobs, slots)
    modifies device`mem
    ensures device.Valid() && device.mem == old(device.mem) - FramesOf(slots)
  {
    for k := 0 to |slots|
      invariant device.Valid() && device.mem == old(device.mem) - FramesOf(slots[..k])
    {
      var s := slots[k];
      FramesOfSplit(slots, k);
      LaterIsApart(slots, k);
      EndedIsUnowned(d, old(device.mem), device.jobs, s);
      assert InMemory(old(device.mem), s.AsJob());
      device.Free(s.rows);
      device.Free(s.bias);
      device.Free(s.states);
    }
    assert slots[..|slots|] == slots;
  }

  lemma FreshIsUnowned(mem: Memory, jobs: seq<Job>, a: Addr)
    requires Separate(mem, jobs) && a !in mem
    ensures !Owned(jobs, a)
  {
  }

  lemma NewIsOk(d: Desc, mem0: Memory, mem: Memory, jobs: seq<Job>, s: Slot)
    requires Separate(mem0, jobs) && s.Frames() !! mem0.Keys
    requires InMemory(mem, s.AsJob()) && !s.busy
    requires |mem[s.rows]| == d.RowsLen() && |mem[s.bias]| == d.BiasLen() && |mem[s.states]| == d.RowsLen()
    ensures SlotOk(d, mem, jobs, s)
  {
    forall j | RunningAt(jobs, j)
      ensures jobs[j].Frames() !! s.Frames()
    {
      assert InMemory(mem0, jobs[j]);
    }
  }

  /** Allocates a frame set and binds it, or leaves memory as it was. */
  method NewSlot(device: Device, d: Desc) returns (s: Option<Slot>, short: bool)
    requires device.Valid()
    modifies device`turn, device`mem, device`next
    ensures device.Valid() && (device.Stuck() ==> s.Some?)
    ensures s.None? ==> device.mem == old(device.mem)
    ensures s.Some? ==> !s.value.busy && SlotOk(d, device.mem, device.jobs, s.value)
    ensures s.Some? ==> s.value.Frames() !! old(device.mem).Keys
    ensures s.Some? ==> device.mem.Keys == old(device.mem).Keys + s.value.Frames()
    ensures forall a :: a in old(device.mem) ==> a in device.mem && device.mem[a] == old(device.mem)[a]
  {
    hide SlotOk, Separate, Owned, Device.Stuck;
    ghost var mem0 := device.mem;
    var rows := device.Alloc(d.RowsLen());
    if rows.None? {
      return None, true;
    }
    FreshIsUnowned(mem0, device.jobs, rows.value);
    var bias := device.Alloc(d.BiasLen());
    if bias.None? {
      device.Free(rows.value);
      assert device.mem == mem0;
      return None, true;
    }
    FreshIsUnowned(mem0, device.jobs, bias.value);
    var states := device.Alloc(d.RowsLen());
    if states.None? {
      device.Free(bias.value);
      device.Free(rows.value);
      assert device.mem == mem0;
      return None, true;
    }
    FreshIsUnowned(mem0, device.jobs, states.value);
    var bound := device.Request();
    if !bound {
      device.Free(states.value);
      device.Free(bias.value);
      device.Free(rows.value);
      assert device.mem == mem0;
      return None, false;
    }
    s := Some(Slot(rows.value, bias.value, states.value, 0, false, 0));
    short := false;
    NewIsOk(d, mem0, device.mem, device.jobs, s.value);
  }
}
