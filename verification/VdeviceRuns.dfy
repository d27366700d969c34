/** What the registry's runs give its callers: one vdevice a device, none that
    is dying, and no wake-up lost. */
module VdeviceRuns {
  import opened VdeviceRegistry
  import opened VdeviceSteps

  // ---- What it means for the callers ----

  lemma {:induction false} EveryRunKeepsInv(trace: seq<State>, events: seq<Event>, k: nat)
    requires Run(trace, events) && k < |trace|
    ensures Inv(trace[k])
  {
    hide Inv, Shaped, Enabled, After, Starts;
    if k == 0 {
      InvStarts(trace[0]);
    } else {
      EveryRunKeepsInv(trace, events, k - 1);
      StepKeepsInv(trace[k - 1], events[k - 1]);
    }
  }

  /** A vdevice not yet destroyed is in the list, or about to be. */
  lemma OpenIsEntered(s: State, v: nat)
    requires Inv(s) && v < |s.vds| && !s.vds[v].destroyed
    ensures Entered(s, v) || Fresh(s, v)
  {
    hide Entered, Fresh, Carriers, TornDown;
  }

  /** HailoRT opens a device for one vdevice at a time: of two vdevices of one
      device, one at least is out of its destructor. */
  lemma OneOpenVdeviceADevice(s: State, v: nat, w: nat)
    requires Inv(s) && v < |s.vds| && w < |s.vds| && v != w && s.vds[v].key == s.vds[w].key
    ensures s.vds[v].destroyed || s.vds[w].destroyed
  {
    hide Counted, Awaited, Deleters, TornDown;
    if !s.vds[v].destroyed && !s.vds[w].destroyed {
      OpenIsEntered(s, v);
      OpenIsEntered(s, w);
      EnteredOnce(s, v, w);
    }
  }

  lemma EnteredOnce(s: State, v: nat, w: nat)
    requires Inv(s) && v < |s.vds| && w < |s.vds| && s.vds[v].key == s.vds[w].key
    requires (Entered(s, v) || Fresh(s, v)) && (Entered(s, w) || Fresh(s, w))
    ensures v == w
  {
    hide Counted, Awaited, Deleters, TornDown;
    assert forall u :: Entered(s, u) ==> exists i :: 0 <= i < |s.entries| && EntryOf(s.entries[i], u);
  }

  /** VDevice::create is called for a device only when every vdevice it had is
      destroyed, so HailoRT is never asked for a second. */
  lemma OpensOnlyAfterTheLastIsGone(s: State, t: Thread, v: nat)
    requires Inv(s) && t < |s.pcs| && s.pcs[t].Opening? && v < |s.vds| && s.vds[v].key == s.pcs[t].key
    ensures s.vds[v].destroyed && s.vds[v].refs == 0
  {
    hide Counted, Awaited, TornDown, Carriers;
    if !s.vds[v].destroyed {
      OpenIsEntered(s, v);
    }
  }

  /** What a context holds, and what a thread is about to give one, is alive
      and is a vdevice of the device asked for. */
  lemma NobodyGetsADyingVdevice(s: State, v: nat, t: Thread)
    requires Inv(s) && (v in s.contexts || (t < |s.pcs| && Carried(s.pcs[t]) == Some(v)))
    ensures v < |s.vds| && s.vds[v].refs > 0 && !s.vds[v].destroyed && !TornDown(s, v)
    ensures t < |s.pcs| && Carried(s.pcs[t]) == Some(v) ==> s.vds[v].key == s.pcs[t].key
  {
    hide Registered, Awaited, Carriers;
    if v in s.contexts {
      SharedIsCounted(s, v);
    } else {
      CarriedIsShared(s, t);
    }
  }

  /** Contexts on one device share one vdevice. */
  lemma ContextsOnADeviceShare(s: State, v: nat, w: nat)
    requires Inv(s) && v in s.contexts && w in s.contexts && v < |s.vds| && w < |s.vds| && s.vds[v].key == s.vds[w].key
    ensures v == w
  {
    hide Inv, Shaped, TornDown;
    NobodyGetsADyingVdevice(s, v, |s.pcs|);
    NobodyGetsADyingVdevice(s, w, |s.pcs|);
    if v != w {
      OneOpenVdeviceADevice(s, v, w);
    }
  }

  // ---- No wake-up is lost: every call and every deleter ends ----

  /** Steps a thread has left, and what its notify may give others. */
  function Rank(pc: Pc, n: nat): nat {
    match pc
    case Idle => 0
    case Calling(_) => 5
    case Looking(_) => 4
    case Waiting(_) => 0
    case Woken(_) => 5
    case Opening(_) => 3
    case Opened(_, _) => 2
    case Leaving(_, _) => 1
    case Deleting(_) => 5 * n + 5
    case Locking(_) => 5 * n + 4
    case Erasing(_) => 5 * n + 3
    case Notifying(_) => 5 * n + 2
    case Unlocking => 1
  }

  function Sum(pcs: seq<Pc>, n: nat): nat {
    if pcs == [] then 0 else Sum(pcs[..|pcs| - 1], n) + Rank(pcs[|pcs| - 1], n)
  }

  lemma {:induction false} SumAt(pcs: seq<Pc>, t: Thread, pc: Pc, n: nat)
    requires t < |pcs|
    ensures Sum(pcs[t := pc], n) + Rank(pcs[t], n) == Sum(pcs, n) + Rank(pc, n)
  {
    hide Rank;
    var m := |pcs| - 1;
    if t < m {
      assert pcs[t := pc][..m] == pcs[..m][t := pc];
      SumAt(pcs[..m], t, pc, n);
    } else {
      assert pcs[t := pc][..m] == pcs[..m];
    }
  }

  lemma {:induction false} SumOfWoken(pcs: seq<Pc>, n: nat)
    ensures Sum(Wake(pcs), n) <= Sum(pcs, n) + 5 * |pcs|
  {
    if pcs != [] {
      assert Wake(pcs)[..|pcs| - 1] == Wake(pcs[..|pcs| - 1]);
      SumOfWoken(pcs[..|pcs| - 1], n);
    }
  }

  /** Steps left in all, when no one calls, releases or wakes for nothing. */
  function StepsLeft(s: State): nat { Sum(s.pcs, |s.pcs|) }

  lemma RankFalls(s: State, e: Event)
    requires Shaped(s) && Enabled(s, e) && Own(e) && !e.Notify?
    ensures Rank(NextPc(s, e), |s.pcs|) < Rank(s.pcs[e.t], |s.pcs|)
  {
    hide Find;
  }

  lemma OwnStepsRunOut(s: State, e: Event)
    requires Shaped(s) && Enabled(s, e) && Own(e)
    ensures StepsLeft(After(s, e)) < StepsLeft(s)
  {
    hide NextPc, NextVds, NextContexts, NextEntries, NextLock, Sum, Rank, Shaped;
    var n := |s.pcs|;
    if e.Notify? {
      SumOfWoken(s.pcs, n);
      SumAt(Wake(s.pcs), e.t, NextPc(s, e), n);
      NotifyPays(s, e);
    } else {
      SumAt(s.pcs, e.t, NextPc(s, e), n);
      RankFalls(s, e);
    }
  }

  lemma NotifyPays(s: State, e: Event)
    requires Shaped(s) && Enabled(s, e) && e.Notify?
    ensures Rank(NextPc(s, e), |s.pcs|) + 5 * |s.pcs| < Rank(s.pcs[e.t], |s.pcs|)
    ensures Wake(s.pcs)[e.t] == s.pcs[e.t]
  {
  }

  /** While some thread is in a call or a deleter, one can take a step. */
  lemma SomeoneCanStep(s: State, t: Thread) returns (e: Event)
    requires Inv(s) && t < |s.pcs| && !s.pcs[t].Idle?
    ensures Own(e) && Enabled(s, e)
  {
    hide Keyed, Counted, Deleters, Registered, Awaited, Shaped;
    if s.lock.Some? {
      return Next(s, s.lock.value);
    } else if !s.pcs[t].Waiting? {
      return Next(s, t);
    } else {
      var d := AwaitedBy(s, t);
      return Next(s, d);
    }
  }

  lemma AwaitedBy(s: State, t: Thread) returns (d: Thread)
    requires Shaped(s) && Awaited(s) && t < |s.pcs| && s.pcs[t].Waiting?
    ensures d < |s.pcs| && !s.pcs[d].Idle? && !s.pcs[d].Waiting?
  {
    var u :| 0 <= u < |s.pcs| && WillNotify(s, u, s.pcs[t].key);
    d := u;
  }

  /** The step thread t is at. */
  function Next(s: State, t: Thread): (e: Event)
    requires Shaped(s) && Locked(s) && t < |s.pcs| && !s.pcs[t].Idle? && !s.pcs[t].Waiting?
    requires s.lock.None? || s.lock == Some(t)
    ensures Own(e) && Enabled(s, e)
  {
    match s.pcs[t]
    case Looking(_) => Look(t)
    case Opening(_) => Open(t, true)
    case Opened(_, _) => Record(t)
    case Leaving(_, _) => Leave(t)
    case Deleting(_) => Delete(t)
    case Erasing(_) => Erase(t)
    case Notifying(_) => Notify(t)
    case Unlocking => Unlock(t)
    case _ => Acquire(t)
  }

  /** The states the threads' own steps lead through from s. */
  ghost predicate OwnRun(s: State, events: seq<Event>, last: State)
    decreases |events|
  {
    if events == [] then last == s
    else Shaped(s) && Own(events[0]) && Enabled(s, events[0]) && OwnRun(After(s, events[0]), events[1..], last)
  }

  /** Left alone, the threads stop, after a number of steps known at the
      start; and where none can go on, each has returned: none is left waiting
      for a notify that was sent before it slept or never comes. */
  lemma {:induction false} EveryoneReturns(s: State, events: seq<Event>, last: State)
    requires Inv(s) && OwnRun(s, events, last)
    ensures |events| <= StepsLeft(s) && Inv(last)
    ensures (forall t :: 0 <= t < |last.pcs| ==> last.pcs[t].Idle?)
      || exists e :: Own(e) && Shaped(last) && Enabled(last, e)
    decreases |events|
  {
    hide After, StepsLeft, Enabled;
    if events == [] {
      if t :| 0 <= t < |last.pcs| && !last.pcs[t].Idle? {
        var e := SomeoneCanStep(last, t);
      }
    } else {
      hide Inv, Shaped;
      OwnStepsRunOut(s, events[0]);
      StepKeepsInv(s, events[0]);
      EveryoneReturns(After(s, events[0]), events[1..], last);
    }
  }
}
