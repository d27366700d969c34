/** What shared_vdevice returns: the shared vdevice of the device asked for
    whenever there is one, a new one when it was made, and none only when
    making it failed. */
module VdeviceAnswers {
  import opened VdeviceRegistry
  import opened VdeviceSteps
  import opened VdeviceRuns

  /** The event is a step of thread t. */
  predicate Of(e: Event, t: Thread) { !e.Share? && e.t == t }

  predicate InCall(pc: Pc) {
    pc.Calling? || pc.Looking? || pc.Waiting? || pc.Woken? || pc.Opening? || pc.Opened? || pc.Leaving?
  }

  /** Event j is thread t's call for the key, and it has not returned nor
      called again before k. */
  predicate CalledAt(events: seq<Event>, j: int, k: nat, t: Thread, key: Key)
    requires k <= |events|
  {
    0 <= j < k && events[j] == Call(t, key)
    && forall m :: j < m < k ==> !(Of(events[m], t) && (events[m].Call? || events[m].Leave?))
  }

  /** Event j is thread t's own last step before k. */
  predicate LastStep(events: seq<Event>, j: int, k: nat, t: Thread)
    requires k <= |events|
  {
    0 <= j < k && Of(events[j], t) && forall m :: j < m < k ==> !Of(events[m], t)
  }

  /** Where a thread is tells what it was asked and what its last step was. */
  ghost predicate Told(events: seq<Event>, k: nat, t: Thread, pc: Pc)
    requires k <= |events|
  {
    && (InCall(pc) ==> exists j :: CalledAt(events, j, k, t, pc.key))
    && (pc.Leaving? ==> exists j :: LastStep(events, j, k, t) && (pc.got.None? <==> events[j] == Open(t, false)))
  }

  /** Steps of others leave what is told of a thread. */
  lemma OthersTellNothing(events: seq<Event>, k: nat, t: Thread, pc: Pc, pc': Pc)
    requires k < |events| && !Of(events[k], t) && Told(events, k, t, pc)
    requires pc' == pc || (pc.Waiting? && pc' == Woken(pc.key))
    ensures Told(events, k + 1, t, pc')
  {
    if InCall(pc) {
      var j :| CalledAt(events, j, k, t, pc.key);
      assert CalledAt(events, j, k + 1, t, pc'.key);
    }
    if pc.Leaving? {
      var j :| LastStep(events, j, k, t) && (pc.got.None? <==> events[j] == Open(t, false));
      assert LastStep(events, j, k + 1, t);
    }
  }

  /** A thread's own step. */
  lemma OwnStepTells(events: seq<Event>, k: nat, t: Thread, s: State)
    requires k < |events| && Of(events[k], t) && Shaped(s) && Enabled(s, events[k])
    requires Told(events, k, t, s.pcs[t])
    ensures Told(events, k + 1, t, NextPc(s, events[k]))
  {
    var pc, e, pc' := s.pcs[t], events[k], NextPc(s, events[k]);
    assert LastStep(events, k, k + 1, t);
    if InCall(pc') {
      if e.Call? {
        assert CalledAt(events, k, k + 1, t, e.key);
      } else {
        assert pc'.key == pc.key && InCall(pc);
        var j :| CalledAt(events, j, k, t, pc.key);
        assert CalledAt(events, j, k + 1, t, pc'.key);
      }
    }
    if pc'.Leaving? {
      assert pc'.got.None? <==> e == Open(t, false);
    }
  }

  lemma {:induction false} EveryRunTells(trace: seq<State>, events: seq<Event>, k: nat, t: Thread)
    requires Run(trace, events) && k < |trace| && t < |trace[k].pcs|
    ensures Told(events, k, t, trace[k].pcs[t])
  {
    hide Told, Enabled, NextPc, Shaped, Starts;
    if k == 0 {
      IdleTellsNothing(trace[0], events, t);
    } else {
      var s, e := trace[k - 1], events[k - 1];
      EveryRunTells(trace, events, k - 1, t);
      if Of(e, t) {
        OwnStepTells(events, k - 1, t, s);
      } else {
        OthersTellNothing(events, k - 1, t, s.pcs[t], trace[k].pcs[t]);
      }
    }
  }

  lemma IdleTellsNothing(s: State, events: seq<Event>, t: Thread)
    requires Starts(s) && t < |s.pcs|
    ensures Told(events, 0, t, s.pcs[t])
  {
  }

  /** v is handed to a caller: one more of it is held. */
  predicate Handed(s: State, s': State, v: nat, key: Key) {
    && v < |s.vds| && s.vds[v].key == key && s.vds[v].refs > 0 && !s.vds[v].destroyed
    && s'.contexts == s.contexts + multiset{v}
  }

  /** What a call returns, over every run: nothing exactly when its own last
      step failed to make a vdevice, and else one, alive, of the device its
      caller named. */
  lemma ACallGetsItsVdevice(trace: seq<State>, events: seq<Event>, k: nat, t: Thread)
    returns (called: nat, last: nat, v: nat)
    requires Run(trace, events) && k < |events| && events[k] == Leave(t)
    ensures called < k && events[called].Call? && CalledAt(events, called, k, t, events[called].key)
    ensures LastStep(events, last, k, t)
    ensures if events[last] == Open(t, false) then trace[k + 1].contexts == trace[k].contexts
            else Handed(trace[k], trace[k + 1], v, events[called].key)
  {
    hide Inv, Told, Shaped;
    var s := trace[k];
    assert Shaped(s) && Enabled(s, events[k]);
    EveryRunKeepsInv(trace, events, k);
    EveryRunTells(trace, events, k, t);
    called, last := WhatWasTold(events, k, t, s.pcs[t]);
    v := 0;
    if s.pcs[t].got.Some? {
      v := s.pcs[t].got.value;
      NobodyGetsADyingVdevice(s, v, t);
    }
  }

  lemma WhatWasTold(events: seq<Event>, k: nat, t: Thread, pc: Pc) returns (called: nat, last: nat)
    requires k <= |events| && Told(events, k, t, pc) && pc.Leaving?
    ensures called < k && events[called] == Call(t, pc.key) && CalledAt(events, called, k, t, pc.key)
    ensures LastStep(events, last, k, t) && (pc.got.None? <==> events[last] == Open(t, false))
  {
    var i :| CalledAt(events, i, k, t, pc.key);
    var j :| LastStep(events, j, k, t) && (pc.got.None? <==> events[j] == Open(t, false));
    called, last := i, j;
  }

  /** A look in the list: the call leaves with the vdevice of an entry of its
      key that is shared, waits for one that is not, and with no such entry
      makes one. */
  lemma ALookTakesWhatIsShared(s: State, t: Thread, i: nat)
    requires Inv(s) && t < |s.pcs| && s.pcs[t].Looking?
    ensures i < |s.entries| && s.entries[i].0 == s.pcs[t].key && s.vds[s.entries[i].1].refs > 0 ==>
      && After(s, Look(t)).pcs[t] == Leaving(s.pcs[t].key, Some(s.entries[i].1))
      && After(s, Look(t)).vds[s.entries[i].1].refs == s.vds[s.entries[i].1].refs + 1
    ensures i < |s.entries| && s.entries[i].0 == s.pcs[t].key && s.vds[s.entries[i].1].refs == 0 ==>
      After(s, Look(t)).pcs[t] == Waiting(s.pcs[t].key) && After(s, Look(t)).lock.None?
    ensures (forall j :: 0 <= j < |s.entries| ==> s.entries[j].0 != s.pcs[t].key) <==>
      After(s, Look(t)).pcs[t] == Opening(s.pcs[t].key)
  {
    hide Counted, Deleters, Registered, Awaited;
  }

  /** So while a context holds a vdevice of the device, a call that looks gets
      that very one. */
  lemma ACallOnAnOpenDeviceShares(s: State, t: Thread, v: nat)
    requires Inv(s) && t < |s.pcs| && s.pcs[t].Looking?
    requires v in s.contexts && v < |s.vds| && s.vds[v].key == s.pcs[t].key
    ensures After(s, Look(t)).pcs[t] == Leaving(s.pcs[t].key, Some(v))
  {
    hide Counted, Awaited, Deleters, TornDown, After;
    NobodyGetsADyingVdevice(s, v, t);
    OpenIsEntered(s, v);
    assert !Fresh(s, v);
    var i :| 0 <= i < |s.entries| && EntryOf(s.entries[i], v);
    ALookTakesWhatIsShared(s, t, i);
  }

  /** What may come in any state: calls of any device while a thread is idle,
      whoever holds a vdevice shares it or lets go, a device is opened or is
      not, a wait ends for no reason, and a free lock goes to any that asks. */
  lemma WhatMayCome(s: State, t: Thread, key: Key, v: nat)
    requires Inv(s) && t < |s.pcs|
    ensures s.pcs[t].Idle? ==> Enabled(s, Call(t, key))
    ensures v in s.contexts ==> Enabled(s, Share(v)) && (s.pcs[t].Idle? ==> Enabled(s, Drop(t, v)))
    ensures s.pcs[t].Opening? ==> Enabled(s, Open(t, true)) && Enabled(s, Open(t, false))
    ensures s.pcs[t].Waiting? ==> Enabled(s, Spurious(t))
    ensures s.lock.None? && (s.pcs[t].Calling? || s.pcs[t].Woken? || s.pcs[t].Locking?) ==> Enabled(s, Acquire(t))
  {
    hide Deleters, Registered, Awaited, Keyed, Locked;
  }
}
