/** The device a Hailo session hands its frames to, and the memory they live
    in. The device is an adversary: at every point where the host waits, it
    makes any moves it likes on the jobs still running, it may scribble over
    their output, finish them in any order, fail them or never finish them.
    What the host may do with a frame is stated as preconditions: it writes,
    reads or frees no memory a running job owns. */
module HailoDevice {
  import opened HailoFrames

  type Addr = nat
  type Memory = map<Addr, seq<Elem>>
  type Encoder = (seq<Elem>, seq<Elem>) -> seq<Elem>

  datatype JobState = Running | Done | Failed

  datatype Job = Job(rows: Addr, bias: Addr, states: Addr, state: JobState) {
    function Frames(): set<Addr> { {rows, bias, states} }
  }

  datatype Move =
    | Finish(job: nat)
    | Break(job: nat, left: seq<Elem>)
    | Scribble(job: nat, data: seq<Elem>)

  datatype Status = Success | TimedOut | DeviceError

  datatype Option<T> = None | Some(value: T) {
    function GetOr(default: T): T { if Some? then value else default }
  }

  /** How long a run waits for room in the device's queue, in ms. */
  const FRAME_TIMEOUT: nat := 10000

  predicate RunningAt(jobs: seq<Job>, j: int) {
    0 <= j < |jobs| && jobs[j].state.Running?
  }

  /** The device may still read or write a's memory. */
  ghost predicate Owned(jobs: seq<Job>, a: Addr) {
    exists j :: RunningAt(jobs, j) && a in jobs[j].Frames()
  }

  ghost predicate InMemory(mem: Memory, job: Job) {
    && job.rows in mem && job.bias in mem && job.states in mem
    && job.rows != job.bias && job.bias != job.states && job.rows != job.states
  }

  /** No two running jobs share memory. */
  ghost predicate Separate(mem: Memory, jobs: seq<Job>) {
    && (forall j :: RunningAt(jobs, j) ==> InMemory(mem, jobs[j]))
    && (forall i, j :: RunningAt(jobs, i) && RunningAt(jobs, j) && i != j ==> jobs[i].Frames() !! jobs[j].Frames())
  }

  /** Some running job writes its hidden states at a. */
  ghost predicate Written(jobs: seq<Job>, a: Addr) {
    exists j :: RunningAt(jobs, j) && jobs[j].states == a
  }

  /** What any number of the device's moves may do. */
  ghost predicate Progress(encode: Encoder, mem0: Memory, jobs0: seq<Job>, mem: Memory, jobs: seq<Job>) {
    && |jobs| == |jobs0|
    && (forall j :: 0 <= j < |jobs| ==> jobs[j].(state := jobs0[j].state) == jobs0[j])
    && (forall j :: 0 <= j < |jobs| && !jobs0[j].state.Running? ==> jobs[j] == jobs0[j])
    && mem.Keys == mem0.Keys
    && (forall a :: a in mem ==> |mem[a]| == |mem0[a]|)
    && (forall a :: a in mem && !Written(jobs0, a) ==> mem[a] == mem0[a])
    && (forall j :: RunningAt(jobs0, j) && jobs[j].state.Done? ==>
          jobs[j].rows in mem0 && jobs[j].bias in mem0 && jobs[j].states in mem0 &&
          mem[jobs[j].states] == Fit(encode(mem0[jobs[j].rows], mem0[jobs[j].bias]), |mem0[jobs[j].states]|))
  }

  class Device {
    const encode: Encoder
    // The adversary: its moves at each wait, whether it grants each request,
    // and where the allocator places each frame.
    const moves: nat -> seq<Move>
    const grants: nat -> bool
    const places: nat -> Addr

    var turn: nat
    var mem: Memory
    var jobs: seq<Job>
    var next: Addr      // above every address in use
    var waited: nat     // ms spent in waits that expired

    constructor (encode: Encoder, moves: nat -> seq<Move>, grants: nat -> bool, places: nat -> Addr)
      ensures Valid() && mem == map[] && jobs == [] && waited == 0 && this.encode == encode
      ensures this.moves == moves && this.grants == grants && this.places == places
    {
      this.encode, this.moves, this.grants, this.places := encode, moves, grants, places;
      turn, mem, jobs, next, waited := 0, map[], [], 0, 0;
    }

    ghost predicate Valid()
      reads this
    {
      && Separate(mem, jobs)
      && (forall a :: a in mem ==> a < next)
    }

    /** It grants every request and ends no job. */
    ghost predicate Stuck() {
      (forall t :: moves(t) == []) && forall t :: grants(t)
    }

    /** The device's moves up to now. */
    method Work()
      requires Valid()
      modifies this`turn, this`mem, this`jobs
      ensures Valid()
      ensures Stuck() ==> jobs == old(jobs)
      ensures Progress(encode, old(mem), old(jobs), mem, jobs)
    {
      var todo := moves(turn);
      turn := turn + 1;
      ghost var mem0, jobs0 := mem, jobs;
      for i := 0 to |todo|
        invariant Valid()
        invariant Progress(encode, mem0, jobs0, mem, jobs)
        invariant i == 0 ==> jobs == jobs0
      {
        var j := todo[i].job;
        if j < |jobs| && jobs[j].state.Running? {
          assert RunningAt(jobs, j);
          Move(todo[i]);
        }
      }
    }

    method Move(m: Move)
      requires Valid() && RunningAt(jobs, m.job)
      modifies this`mem, this`jobs
      ensures Valid()
      ensures forall mem0, jobs0 :: Separate(mem0, jobs0) && Progress(encode, mem0, jobs0, old(mem), old(jobs)) ==>
        Progress(encode, mem0, jobs0, mem, jobs)
    {
      var job := jobs[m.job];
      assert InMemory(mem, job);
      var n := |mem[job.states]|;
      ghost var mem1, jobs1 := mem, jobs;
      match m {
        case Scribble(_, data) =>
          mem := mem[job.states := Fit(data, n)];
        case Break(_, data) =>
          mem := mem[job.states := Fit(data, n)];
          jobs := jobs[m.job := job.(state := Failed)];
        case Finish(_) =>
          mem := mem[job.states := Fit(encode(mem[job.rows], mem[job.bias]), n)];
          jobs := jobs[m.job := job.(state := Done)];
      }
      assert forall j :: RunningAt(jobs, j) ==> RunningAt(jobs1, j) && jobs[j] == jobs1[j];
      forall mem0, jobs0 | Separate(mem0, jobs0) && Progress(encode, mem0, jobs0, mem1, jobs1)
        ensures Progress(encode, mem0, jobs0, mem, jobs)
      {
        MoveIsProgress(encode, mem0, jobs0, mem1, jobs1, m.job, mem, jobs);
      }
    }

    method Alloc(n: nat) returns (a: Option<Addr>)
      requires Valid()
      modifies this`turn, this`mem, this`next
      ensures Valid()
      ensures Stuck() ==> a.Some?
      ensures a.None? ==> mem == old(mem)
      ensures a.Some? ==> a.value !in old(mem) && mem == old(mem)[a.value := seq(n, _ => 0)]
    {
      turn := turn + 1;
      if !grants(turn) {
        return None;
      }
      var p := places(turn);
      if p in mem {
        p := next;
      }
      next := if p < next then next else p + 1;
      mem := mem[p := seq(n, _ => 0)];
      a := Some(p);
    }

    /** A request that takes no memory of the host's. */
    method Request() returns (ok: bool)
      requires Valid()
      modifies this`turn
      ensures Valid() && (Stuck() ==> ok)
    {
      turn := turn + 1;
      ok := grants(turn);
    }

    method Free(a: Addr)
      requires Valid() && a in mem && !Owned(jobs, a)
      modifies this`mem
      ensures Valid() && mem == old(mem) - {a}
    {
      mem := mem - {a};
    }

    method Store(a: Addr, i: nat, v: Elem)
      requires Valid() && a in mem && i < |mem[a]| && !Owned(jobs, a)
      modifies this`mem
      ensures Valid() && mem == old(mem)[a := old(mem)[a][i := v]]
    {
      mem := mem[a := mem[a][i := v]];
    }

    /** memcpy of n elements inside one frame. */
    method CopyWithin(a: Addr, to: nat, from: nat, n: nat)
      requires Valid() && a in mem && !Owned(jobs, a)
      requires from + n <= to && to + n <= |mem[a]|
      modifies this`mem
      ensures Valid()
      ensures mem == old(mem)[a := old(mem)[a][..to] + old(mem)[a][from..from + n] + old(mem)[a][to + n..]]
    {
      mem := mem[a := mem[a][..to] + mem[a][from..from + n] + mem[a][to + n..]];
    }

    function Load(a: Addr): (s: seq<Elem>)
      requires a in mem && !Owned(jobs, a)
      reads this
      ensures s == mem[a]
    {
      mem[a]
    }

    /** wait_for_async_ready: room in the device's queue, or the wait expires. */
    method Ready() returns (ok: bool)
      requires Valid()
      modifies this`turn, this`mem, this`jobs, this`waited
      ensures Valid() && Progress(encode, old(mem), old(jobs), mem, jobs)
      ensures waited == if ok then old(waited) else old(waited) + FRAME_TIMEOUT
      ensures Stuck() ==> ok && jobs == old(jobs)
    {
      Work();
      ok := grants(turn);
      if !ok {
        waited := waited + FRAME_TIMEOUT;
      }
    }

    /** run_async: the device owns the three frames until the job ends. */
    method Submit(rows: Addr, bias: Addr, states: Addr) returns (j: Option<nat>)
      requires Valid() && InMemory(mem, Job(rows, bias, states, Running))
      requires !Owned(jobs, rows) && !Owned(jobs, bias) && !Owned(jobs, states)
      modifies this`turn, this`jobs
      ensures Valid()
      ensures Stuck() ==> j.Some?
      ensures j.None? ==> jobs == old(jobs)
      ensures j.Some? ==> j.value == |old(jobs)| && jobs == old(jobs) + [Job(rows, bias, states, Running)]
    {
      turn := turn + 1;
      if !grants(turn) {
        return None;
      }
      j := Some(|jobs|);
      assert forall i :: RunningAt(jobs, i) ==> jobs[i].Frames() !! {rows, bias, states};
      jobs := jobs + [Job(rows, bias, states, Running)];
      assert forall i :: RunningAt(jobs, i) && i < |jobs| - 1 ==> RunningAt(old(jobs), i);
    }

    /** AsyncInferJob::wait: Success or an error once the job has ended,
        TimedOut when it still runs after timeout ms. */
    method Wait(j: nat, timeout: nat) returns (s: Status)
      requires Valid() && j < |jobs|
      modifies this`turn, this`mem, this`jobs, this`waited
      ensures Valid() && Progress(encode, old(mem), old(jobs), mem, jobs)
      ensures s.Success? <==> jobs[j].state.Done?
      ensures s.DeviceError? <==> jobs[j].state.Failed?
      ensures s.TimedOut? <==> jobs[j].state.Running?
      ensures waited == if s.TimedOut? then old(waited) + timeout else old(waited)
      ensures Stuck() ==> jobs == old(jobs)
    {
      Work();
      match jobs[j].state {
        case Done => s := Success;
        case Failed => s := DeviceError;
        case Running =>
          s := TimedOut;
          waited := waited + timeout;
      }
    }
  }

  /** One move of the device, after any number of them. */
  lemma MoveIsProgress(encode: Encoder, mem0: Memory, jobs0: seq<Job>, mem1: Memory, jobs1: seq<Job>, j: nat,
                       mem: Memory, jobs: seq<Job>)
    requires Separate(mem0, jobs0) && Progress(encode, mem0, jobs0, mem1, jobs1)
    requires RunningAt(jobs1, j) && InMemory(mem1, jobs1[j])
    requires exists st :: jobs == jobs1[j := jobs1[j].(state := st)]
    requires exists data :: |data| == |mem1[jobs1[j].states]| && mem == mem1[jobs1[j].states := data]
    requires jobs[j].state.Done? ==>
      mem[jobs[j].states] == Fit(encode(mem1[jobs1[j].rows], mem1[jobs1[j].bias]), |mem1[jobs1[j].states]|)
    ensures Progress(encode, mem0, jobs0, mem, jobs)
  {
    var a := jobs1[j].states;
    assert RunningAt(jobs0, j) && jobs0[j].states == a;
    assert Written(jobs0, a);
    forall i | RunningAt(jobs0, i) && jobs[i].state.Done?
      ensures jobs[i].rows in mem0 && jobs[i].bias in mem0 && jobs[i].states in mem0
      ensures mem[jobs[i].states] == Fit(encode(mem0[jobs[i].rows], mem0[jobs[i].bias]), |mem0[jobs[i].states]|)
    {
      assert InMemory(mem0, jobs0[i]);
      InputsStand(mem0, jobs0, i);
      if i != j {
        assert jobs0[i].Frames() !! jobs0[j].Frames();
        assert jobs0[i].states != a;
      }
    }
  }

  /** No running job writes another's inputs, or its own. */
  lemma InputsStand(mem: Memory, jobs: seq<Job>, i: nat)
    requires Separate(mem, jobs) && RunningAt(jobs, i)
    ensures !Written(jobs, jobs[i].rows) && !Written(jobs, jobs[i].bias)
  {
    assert InMemory(mem, jobs[i]);
    forall k | RunningAt(jobs, k)
      ensures jobs[k].states != jobs[i].rows && jobs[k].states != jobs[i].bias
    {
      if k != i {
        assert jobs[k].Frames() !! jobs[i].Frames();
      }
    }
  }
}
