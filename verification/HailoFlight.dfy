/** The frames in flight during one run: which rows they hold, and that what
    comes back is what the device gives for those rows. */
module HailoFlight {
  import opened Arith
  import opened HailoFrames
  import opened HailoDevice
  import opened HailoSlots

  /** The slot holds its row's frame, and, once its job is done, what the
      device gives for it. */
  ghost predicate Carries(d: Desc, encode: Encoder, w: Task, mem: Memory, jobs: seq<Job>, s: Slot)
    requires w.Valid(d)
  {
    && SlotOk(d, mem, jobs, s) && s.busy && s.row < |w.ids|
    && mem[s.rows] == RowsFrame(d, w.ids[s.row])
    && mem[s.bias] == BiasFrame(d, w.mask[s.row])
    && (jobs[s.job].state.Done? ==> mem[s.states] == StatesOf(d, encode, w, s.row))
  }

  lemma CarriesWhileTheDeviceWorks(d: Desc, encode: Encoder, w: Task, mem0: Memory, jobs0: seq<Job>,
                                   mem: Memory, jobs: seq<Job>, s: Slot)
    requires w.Valid(d) && Carries(d, encode, w, mem0, jobs0, s)
    requires Separate(mem0, jobs0) && Progress(encode, mem0, jobs0, mem, jobs)
    ensures Carries(d, encode, w, mem, jobs, s)
  {
    ProgressIsAStep(encode, mem0, jobs0, mem, jobs, {});
    SlotKept(d, mem0, jobs0, mem, jobs, {}, s);
    assert s.rows in s.Frames() && s.bias in s.Frames() && s.states in s.Frames();
    forall j | RunningAt(jobs0, j) && jobs0[j].states in s.Frames()
      ensures j == s.job
    {
      assert !(jobs0[j].Frames() !! s.Frames());
    }
    assert !Written(jobs0, s.rows) && !Written(jobs0, s.bias);
    if jobs[s.job].state.Done? {
      if jobs0[s.job].state.Running? {
        assert RunningAt(jobs0, s.job);
      } else {
        assert !Written(jobs0, s.states);
      }
    }
  }

  /** The host writes a frame set it has to itself: it is still its own. */
  lemma IdleWritten(d: Desc, mem0: Memory, mem: Memory, jobs: seq<Job>, s: Slot)
    requires SlotOk(d, mem0, jobs, s) && !s.busy
    requires mem.Keys == mem0.Keys && forall a :: a in s.Frames() ==> |mem[a]| == |mem0[a]|
    ensures SlotOk(d, mem, jobs, s)
  {
    assert s.rows in s.Frames() && s.bias in s.Frames() && s.states in s.Frames();
  }

  /** The device leaves an idle frame set alone. */
  lemma IdleUntouched(d: Desc, encode: Encoder, mem0: Memory, jobs0: seq<Job>, mem: Memory, jobs: seq<Job>, s: Slot)
    requires SlotOk(d, mem0, jobs0, s) && !s.busy && Progress(encode, mem0, jobs0, mem, jobs)
    ensures SlotOk(d, mem, jobs, s)
    ensures forall a :: a in s.Frames() ==> a in mem && a in mem0 && mem[a] == mem0[a] && !Owned(jobs, a)
  {
    ProgressIsAStep(encode, mem0, jobs0, mem, jobs, {});
    SlotKept(d, mem0, jobs0, mem, jobs, {}, s);
    EndedIsUnowned(d, mem, jobs, s);
    assert s.rows in s.Frames() && s.bias in s.Frames() && s.states in s.Frames();
    forall j | RunningAt(jobs0, j)
      ensures jobs0[j].states !in s.Frames()
    {
      assert jobs0[j].states in jobs0[j].Frames();
    }
  }

  /** An idle frame set holding row's frame is given to the device. */
  lemma SubmittedCarries(d: Desc, encode: Encoder, w: Task, mem: Memory, jobs: seq<Job>, s: Slot, s': Slot)
    requires w.Valid(d) && SlotOk(d, mem, jobs, s) && !s.busy && s.row < |w.ids|
    requires mem[s.rows] == RowsFrame(d, w.ids[s.row]) && mem[s.bias] == BiasFrame(d, w.mask[s.row])
    requires s' == s.(job := |jobs|, busy := true)
    ensures Carries(d, encode, w, mem, jobs + [s.AsJob()], s')
  {
    var jobs' := jobs + [s.AsJob()];
    forall j | RunningAt(jobs', j) && !(jobs'[j].Frames() !! s'.Frames())
      ensures j == |jobs|
    {
      assert j < |jobs| ==> RunningAt(jobs, j);
    }
  }

  /** The ring before row `row` is filled: slot k holds the last row before
      it that k takes, if that one is not back yet. */
  ghost predicate Ring(slots: seq<Slot>, row: nat) {
    forall k :: 0 <= k < |slots| && slots[k].busy ==>
      slots[k].row < row <= slots[k].row + |slots| && slots[k].row % |slots| == k
  }

  ghost predicate Distinct(s: seq<nat>) {
    forall i, j :: 0 <= i < j < |s| ==> s[i] != s[j]
  }

  ghost predicate InFlight(slots: seq<Slot>, b: nat)
    requires |slots| > 0
  {
    slots[b % |slots|].busy && slots[b % |slots|].row == b
  }

  /** Each row before `row` is either in flight or pooled, and pooled once. */
  ghost predicate Accounted(slots: seq<Slot>, row: nat, pooled: seq<nat>)
    requires |slots| > 0
  {
    && Ring(slots, row)
    && Distinct(pooled)
    && (forall b :: 0 <= b < row ==> (b in pooled <==> !InFlight(slots, b)))
    && (forall b :: b in pooled ==> b < row)
  }

  /** A frame comes back and is pooled. */
  lemma Returned(slots: seq<Slot>, row: nat, pooled: seq<nat>, k: nat, slots': seq<Slot>)
    requires |slots| > 0 && k < |slots| && Accounted(slots, row, pooled) && slots[k].busy
    requires slots' == slots[k := slots[k].(busy := false)]
    ensures slots[k].row !in pooled && InFlight(slots, slots[k].row)
    ensures Accounted(slots', row, pooled + [slots[k].row])
  {
    var r := slots[k].row;
    assert r % |slots| == k && InFlight(slots, r);
    forall b | 0 <= b < row
      ensures b in pooled + [r] <==> !InFlight(slots', b)
    {
      if b != r && b % |slots| == k {
        assert !InFlight(slots, b);
      }
    }
  }

  /** A row is sent in a slot that is free. */
  lemma Sent(slots: seq<Slot>, row: nat, pooled: seq<nat>, slots': seq<Slot>)
    requires |slots| > 0 && Accounted(slots, row, pooled) && !slots[row % |slots|].busy
    requires exists s: Slot :: s.busy && s.row == row && slots' == slots[row % |slots| := s]
    ensures Accounted(slots', row + 1, pooled)
  {
    var k := row % |slots|;
    forall i | 0 <= i < |slots| && slots[i].busy
      ensures row + 1 <= slots[i].row + |slots|
    {
      NextTurn(slots[i].row, |slots|);
    }
    forall b | 0 <= b < row + 1
      ensures b in pooled <==> !InFlight(slots', b)
    {
      if b < row && b % |slots| == k {
        assert !InFlight(slots, b);
      }
    }
  }

  lemma NextTurn(row: nat, n: nat)
    requires n > 0
    ensures (row + n) % n == row % n
  {
    Distribute(row / n, n);
    DivModUnique(row / n + 1, row % n, n);
  }

  /** When nothing is in flight, every row was pooled, once. */
  lemma AllBack(slots: seq<Slot>, rows: nat, pooled: seq<nat>)
    requires |slots| > 0 && Accounted(slots, rows, pooled)
    requires forall k :: 0 <= k < |slots| ==> !slots[k].busy
    ensures forall b: nat :: b in pooled <==> b < rows
    ensures |pooled| == rows
  {
    DistinctBelow(pooled, rows);
  }

  lemma RemoveOne(s: seq<nat>, i: nat, t: seq<nat>)
    requires Distinct(s) && i < |s| && t == s[..i] + s[i + 1..]
    ensures Distinct(t)
    ensures forall b: nat :: b in t <==> b in s && b != s[i]
  {
    assert forall j :: 0 <= j < |t| ==> t[j] == s[if j < i then j else j + 1];
    forall b: nat | b in s && b != s[i]
      ensures b in t
    {
      var j :| 0 <= j < |s| && s[j] == b;
      assert t[if j < i then j else j - 1] == b;
    }
  }

  lemma HeadIsIn(s: seq<nat>)
    requires |s| > 0
    ensures s[0] in s
  {
  }

  lemma {:induction false} DistinctBelow(s: seq<nat>, n: nat)
    requires Distinct(s) && forall b: nat :: b in s <==> b < n
    ensures |s| == n
  {
    if n > 0 {
      assert n - 1 in s;
      var i :| 0 <= i < |s| && s[i] == n - 1;
      var t := s[..i] + s[i + 1..];
      RemoveOne(s, i, t);
      DistinctBelow(t, n - 1);
    } else if |s| > 0 {
      HeadIsIn(s);
    }
  }

  /** In the middle of a run: each row before `row` is in flight, carried by
      the slot it takes, or pooled. */
  ghost predicate MidRun(d: Desc, encode: Encoder, w: Task, row: nat, pooled: seq<nat>, mem: Memory, jobs: seq<Job>,
                         slots: seq<Slot>)
    requires w.Valid(d)
  {
    && |slots| > 0 && row <= |w.ids| && SlotsOk(d, mem, jobs, slots) && Accounted(slots, row, pooled)
    && (forall k :: 0 <= k < |slots| && slots[k].busy ==> Carries(d, encode, w, mem, jobs, slots[k]))
  }

  lemma MidRunStarts(d: Desc, encode: Encoder, w: Task, mem: Memory, jobs: seq<Job>, slots: seq<Slot>)
    requires w.Valid(d) && |slots| > 0 && SlotsOk(d, mem, jobs, slots)
    requires forall k :: 0 <= k < |slots| ==> !slots[k].busy
    ensures MidRun(d, encode, w, 0, [], mem, jobs, slots)
  {
  }

  lemma MidRunWaits(encode: Encoder, d: Desc, w: Task, row: nat, pooled: seq<nat>, mem0: Memory, jobs0: seq<Job>,
                    mem: Memory, jobs: seq<Job>, slots: seq<Slot>)
    requires w.Valid(d) && MidRun(d, encode, w, row, pooled, mem0, jobs0, slots)
    requires Separate(mem0, jobs0) && Progress(encode, mem0, jobs0, mem, jobs)
    ensures MidRun(d, encode, w, row, pooled, mem, jobs, slots)
  {
    ProgressIsAStep(encode, mem0, jobs0, mem, jobs, {});
    SlotsKept(d, mem0, jobs0, mem, jobs, {}, slots);
    forall k | 0 <= k < |slots| && slots[k].busy
      ensures Carries(d, encode, w, mem, jobs, slots[k])
    {
      CarriesWhileTheDeviceWorks(d, encode, w, mem0, jobs0, mem, jobs, slots[k]);
    }
  }

  /** What a finished slot holds is what the device gives for its row, and
      the host's to read. */
  lemma CameBack(d: Desc, encode: Encoder, w: Task, row: nat, pooled: seq<nat>, mem: Memory, jobs: seq<Job>,
                 slots: seq<Slot>, k: nat)
    requires w.Valid(d) && MidRun(d, encode, w, row, pooled, mem, jobs, slots) && k < |slots| && slots[k].busy
    ensures slots[k].job < |jobs| && slots[k].row < |w.ids|
    ensures jobs[slots[k].job].state.Done? ==>
      var s := slots[k];
      s.states in mem && mem[s.states] == StatesOf(d, encode, w, s.row) && !Owned(jobs, s.states)
  {
    assert Carries(d, encode, w, mem, jobs, slots[k]);
    if jobs[slots[k].job].state.Done? {
      EndedIsUnowned(d, mem, jobs, slots[k]);
      assert slots[k].states in slots[k].Frames();
    }
  }

  /** Taking a finished frame back out of the ring. */
  lemma MidRunReturns(d: Desc, encode: Encoder, w: Task, row: nat, pooled: seq<nat>, mem: Memory, jobs: seq<Job>,
                      slots: seq<Slot>, k: nat)
    requires w.Valid(d) && MidRun(d, encode, w, row, pooled, mem, jobs, slots) && k < |slots| && slots[k].busy
    requires slots[k].job < |jobs| && jobs[slots[k].job].state.Done?
    ensures var slots' := slots[k := slots[k].(busy := false)];
      MidRun(d, encode, w, row, pooled + [slots[k].row], mem, jobs, slots') && FramesOf(slots') == FramesOf(slots)
  {
    var slots' := slots[k := slots[k].(busy := false)];
    SameFrames(slots, slots');
    Returned(slots, row, pooled, k, slots');
  }

  lemma {:induction false} SameFrames(a: seq<Slot>, b: seq<Slot>)
    requires |a| == |b| && forall i :: 0 <= i < |a| ==> a[i].Frames() == b[i].Frames()
    ensures FramesOf(a) == FramesOf(b) && (Disjoint(a) ==> Disjoint(b))
  {
    if a != [] {
      SameFrames(a[..|a| - 1], b[..|b| - 1]);
    }
  }

  /** Writing the frame of an idle slot. */
  lemma MidRunFills(d: Desc, encode: Encoder, w: Task, row: nat, pooled: seq<nat>, mem0: Memory, mem: Memory,
                    jobs: seq<Job>, slots: seq<Slot>, k: nat, slots': seq<Slot>)
    requires w.Valid(d) && MidRun(d, encode, w, row, pooled, mem0, jobs, slots)
    requires k < |slots| && !slots[k].busy && slots' == slots[k := slots[k].(row := row)]
    requires mem.Keys == mem0.Keys && forall a :: a in mem ==> |mem[a]| == |mem0[a]|
    requires forall a :: a in mem && a !in slots[k].Frames() ==> mem[a] == mem0[a]
    ensures MidRun(d, encode, w, row, pooled, mem, jobs, slots') && FramesOf(slots') == FramesOf(slots)
    ensures Stepped(mem0, jobs, mem, jobs, FramesOf(slots))
  {
    SameFrames(slots, slots');
    FramesWithin(slots, k);
    var s := slots[k];
    assert SlotOk(d, mem0, jobs, s);
    assert s.rows in s.Frames() && s.bias in s.Frames() && s.states in s.Frames();
    IdleWritten(d, mem0, mem, jobs, s);
    forall i | 0 <= i < |slots| && i != k
      ensures SlotOk(d, mem, jobs, slots[i])
      ensures slots[i].busy ==> Carries(d, encode, w, mem, jobs, slots[i])
    {
      assert SlotOk(d, mem0, jobs, slots[i]);
      assert slots[i].Frames() !! s.Frames();
      OtherUnwritten(d, encode, w, mem0, mem, jobs, slots[i], s.Frames());
    }
    assert Accounted(slots', row, pooled) by {
      assert forall b :: 0 <= b < row ==> InFlight(slots', b) == InFlight(slots, b);
    }
  }

  lemma OtherUnwritten(d: Desc, encode: Encoder, w: Task, mem0: Memory, mem: Memory, jobs: seq<Job>, s: Slot,
                       touched: set<Addr>)
    requires w.Valid(d) && SlotOk(d, mem0, jobs, s) && touched !! s.Frames()
    requires s.busy ==> Carries(d, encode, w, mem0, jobs, s)
    requires mem.Keys == mem0.Keys && forall a :: a in mem && a !in touched ==> mem[a] == mem0[a]
    ensures SlotOk(d, mem, jobs, s)
    ensures s.busy ==> Carries(d, encode, w, mem, jobs, s)
  {
    assert s.rows in s.Frames() && s.bias in s.Frames() && s.states in s.Frames();
  }

  /** Giving the filled slot of `row` to the device. */
  lemma MidRunSends(d: Desc, encode: Encoder, w: Task, row: nat, pooled: seq<nat>, mem: Memory, jobs: seq<Job>,
                    slots: seq<Slot>, slots': seq<Slot>)
    requires w.Valid(d) && MidRun(d, encode, w, row, pooled, mem, jobs, slots) && row < |w.ids|
    requires var k := row % |slots|; var s := slots[k];
      && !s.busy && s.row == row && s.rows in mem && s.bias in mem
      && mem[s.rows] == RowsFrame(d, w.ids[row]) && mem[s.bias] == BiasFrame(d, w.mask[row])
      && slots' == slots[k := s.(job := |jobs|, busy := true)]
    ensures var jobs' := jobs + [slots[row % |slots|].AsJob()];
      && MidRun(d, encode, w, row + 1, pooled, mem, jobs', slots') && FramesOf(slots') == FramesOf(slots)
      && Stepped(mem, jobs, mem, jobs', FramesOf(slots))
  {
    var k := row % |slots|;
    var s, jobs' := slots[k], jobs + [slots[k].AsJob()];
    SameFrames(slots, slots');
    FramesWithin(slots, k);
    SubmittedCarries(d, encode, w, mem, jobs, s, slots'[k]);
    Sent(slots, row, pooled, slots');
    forall i | 0 <= i < |slots| && i != k
      ensures SlotOk(d, mem, jobs', slots[i])
      ensures slots[i].busy ==> Carries(d, encode, w, mem, jobs', slots[i])
    {
      assert slots[i].Frames() !! s.Frames();
      assert SlotOk(d, mem, jobs, slots[i]);
      OtherUnsent(d, mem, jobs, slots[i], s);
    }
  }

  lemma OtherUnsent(d: Desc, mem: Memory, jobs: seq<Job>, s: Slot, sent: Slot)
    requires SlotOk(d, mem, jobs, s) && sent.Frames() !! s.Frames()
    ensures SlotOk(d, mem, jobs + [sent.AsJob()], s)
  {
    var jobs' := jobs + [sent.AsJob()];
    forall j | RunningAt(jobs', j) && !(jobs'[j].Frames() !! s.Frames())
      ensures s.busy && s.job == j
    {
      assert j < |jobs| ==> RunningAt(jobs, j);
    }
  }

  /** An idle slot of the ring is the host's to write, and lies in memory. */
  lemma IdleIsTheHosts(d: Desc, encode: Encoder, w: Task, row: nat, pooled: seq<nat>, mem: Memory, jobs: seq<Job>,
                       slots: seq<Slot>, k: nat)
    requires w.Valid(d) && MidRun(d, encode, w, row, pooled, mem, jobs, slots) && k < |slots| && !slots[k].busy
    ensures var s := slots[k];
      && InMemory(mem, s.AsJob()) && |mem[s.rows]| == d.RowsLen() && |mem[s.bias]| == d.BiasLen()
      && !Owned(jobs, s.rows) && !Owned(jobs, s.bias) && !Owned(jobs, s.states)
  {
    assert SlotOk(d, mem, jobs, slots[k]);
    EndedIsUnowned(d, mem, jobs, slots[k]);
  }

  lemma MidRunOwns(d: Desc, encode: Encoder, w: Task, row: nat, pooled: seq<nat>, mem: Memory, jobs: seq<Job>,
                   slots: seq<Slot>)
    requires w.Valid(d) && MidRun(d, encode, w, row, pooled, mem, jobs, slots)
    ensures SlotsOk(d, mem, jobs, slots)
  {
  }
}
