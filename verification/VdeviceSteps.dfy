/** Every step of shared_vdevice keeps what VdeviceRegistry says every run keeps. */
module VdeviceSteps {
  import opened VdeviceRegistry

  lemma {:induction false} CarriersAt(pcs: seq<Pc>, t: Thread, pc: Pc, v: nat)
    requires t < |pcs|
    ensures Carriers(pcs[t := pc], v) + Carries(pcs[t], v) == Carriers(pcs, v) + Carries(pc, v)
  {
    var m := |pcs| - 1;
    if t < m {
      assert pcs[t := pc][..m] == pcs[..m][t := pc];
      CarriersAt(pcs[..m], t, pc, v);
    } else {
      assert pcs[t := pc][..m] == pcs[..m];
    }
  }

  lemma {:induction false} CarriersOfWoken(pcs: seq<Pc>, v: nat)
    ensures Carriers(Wake(pcs), v) == Carriers(pcs, v)
  {
    if pcs != [] {
      assert Wake(pcs)[..|pcs| - 1] == Wake(pcs[..|pcs| - 1]);
      CarriersOfWoken(pcs[..|pcs| - 1], v);
    }
  }

  lemma {:induction false} CarrierCounts(pcs: seq<Pc>, t: Thread, v: nat)
    requires t < |pcs| && Carried(pcs[t]) == Some(v)
    ensures Carriers(pcs, v) > 0
  {
    if t < |pcs| - 1 {
      CarrierCounts(pcs[..|pcs| - 1], t, v);
    }
  }

  lemma {:induction false} NoneCarry(pcs: seq<Pc>, v: nat)
    requires forall t :: 0 <= t < |pcs| ==> Carried(pcs[t]) != Some(v)
    ensures Carriers(pcs, v) == 0
  {
    if pcs != [] {
      NoneCarry(pcs[..|pcs| - 1], v);
    }
  }

  lemma InvStarts(s: State)
    requires Starts(s)
    ensures Inv(s)
  {
  }

  lemma PcShapedKept(s: State, e: Event)
    requires Shaped(s) && Enabled(s, e) && !e.Share?
    ensures PcShaped(NextPc(s, e), |NextVds(s, e)|)
  {
    hide NextVds, Find;
    assert PcShaped(s.pcs[e.t], |s.vds|);
  }

  lemma EntriesShapedKept(s: State, e: Event)
    requires Shaped(s) && Enabled(s, e)
    ensures forall i :: 0 <= i < |NextEntries(s, e)| ==> NextEntries(s, e)[i].1 < |s.vds|
  {
    hide Find;
    assert e.Record? ==> PcShaped(s.pcs[e.t], |s.vds|);
  }

  lemma ContextsShapedKept(s: State, e: Event)
    requires Shaped(s) && Enabled(s, e)
    ensures forall v :: v in NextContexts(s, e) ==> v < |s.vds|
  {
    assert e.Leave? ==> PcShaped(s.pcs[e.t], |s.vds|);
  }

  lemma ShapedKept(s: State, e: Event)
    requires Shaped(s) && Enabled(s, e)
    ensures Shaped(After(s, e))
  {
    hide NextPc, NextVds, NextEntries, NextContexts, NextPcs, Enabled;
    EntriesShapedKept(s, e);
    ContextsShapedKept(s, e);
    if !e.Share? {
      PcShapedKept(s, e);
    }
  }

  lemma LockedKept(s: State, e: Event)
    requires Shaped(s) && Enabled(s, e) && Locked(s)
    ensures Locked(After(s, e))
  {
    hide Shaped, Find, NextVds, NextEntries, NextContexts;
  }

  lemma EntriesKeyed(s: State, e: Event)
    requires Shaped(s) && Enabled(s, e) && Keyed(s) && Registered(s)
    ensures var r := NextEntries(s, e);
      && (forall i, j :: 0 <= i < j < |r| ==> r[i].0 != r[j].0)
      && (forall i :: 0 <= i < |r| ==> r[i].1 < |s.vds| && r[i].0 == s.vds[r[i].1].key)
  {
    hide TornDown, Entered, Fresh, Find;
    assert e.Record? ==> Carried(s.pcs[e.t]).Some?;
    assert e.Record? ==> s.pcs[e.t].Opened?;
  }

  lemma CarriedKeyed(s: State, e: Event)
    requires Shaped(s) && Enabled(s, e) && Keyed(s) && !e.Share? && Carried(NextPc(s, e)).Some?
    ensures Carried(NextPc(s, e)).value < |NextVds(s, e)|
    ensures NextVds(s, e)[Carried(NextPc(s, e)).value].key == NextPc(s, e).key
  {
  }

  lemma KeyedKept(s: State, e: Event)
    requires Shaped(s) && Enabled(s, e) && Keyed(s) && Registered(s)
    ensures Shaped(After(s, e)) && Keyed(After(s, e))
  {
    hide Registered, NextPc, NextVds, NextContexts, NextEntries, NextLock, Enabled;
    ShapedKept(s, e);
    EntriesKeyed(s, e);
    if !e.Share? && Carried(NextPc(s, e)).Some? {
      CarriedKeyed(s, e);
    }
  }

  /** The count moves with the pointers to v. */
  lemma CountMoves(s: State, e: Event, v: nat)
    requires Shaped(s) && Enabled(s, e) && v < |NextVds(s, e)|
    ensures NextVds(s, e)[v].refs + s.contexts[v] + (if e.Share? then 0 else Carries(s.pcs[e.t], v)) ==
            (if v < |s.vds| then s.vds[v].refs else 0) + NextContexts(s, e)[v]
            + (if e.Share? then 0 else Carries(NextPc(s, e), v))
    ensures v >= |s.vds| ==> v !in s.contexts && forall t :: 0 <= t < |s.pcs| ==> Carried(s.pcs[t]) != Some(v)
  {
    hide Find;
    assert !e.Share? ==> PcShaped(s.pcs[e.t], |s.vds|);
  }

  lemma CountedKept(s: State, e: Event)
    requires Shaped(s) && Enabled(s, e) && Counted(s)
    ensures Shaped(After(s, e)) && Counted(After(s, e))
  {
    hide Carriers, NextPc, NextVds, NextContexts, NextEntries, NextLock, Shaped, Carries;
    ShapedKept(s, e);
    var r := After(s, e);
    forall v | 0 <= v < |r.vds|
      ensures r.vds[v].refs == r.contexts[v] + Carriers(r.pcs, v)
    {
      CountMoves(s, e, v);
      if e.Notify? {
        CarriersOfWoken(s.pcs, v);
        CarriersAt(Wake(s.pcs), e.t, NextPc(s, e), v);
      } else if !e.Share? {
        CarriersAt(s.pcs, e.t, NextPc(s, e), v);
      }
      if v >= |s.vds| {
        NoneCarry(s.pcs, v);
      }
    }
  }

  /** What is being torn down after a step. */
  ghost predicate TornNext(s: State, e: Event, w: nat)
    requires Shaped(s) && Enabled(s, e)
  {
    match e
    case Drop(_, v) => TornDown(s, w) || (v == w && s.vds[v].refs == 1)
    case Erase(t) => TornDown(s, w) && s.pcs[t].v != w
    case _ => TornDown(s, w)
  }

  lemma TornOfNext(s: State, e: Event, t: Thread)
    requires Shaped(s) && Enabled(s, e) && t < |s.pcs|
    ensures Torn(NextPcOf(s, e, t)) ==
            if e.Drop? && e.t == t && s.vds[e.v].refs == 1 then Some(e.v)
            else if e.Erase? && e.t == t then None
            else Torn(s.pcs[t])
    ensures NextPcOf(s, e, t).Deleting? <==>
            (e.Drop? && e.t == t && s.vds[e.v].refs == 1) || (s.pcs[t].Deleting? && !(e.Delete? && e.t == t))
    ensures Torn(s.pcs[t]).Some? && e.Drop? ==> e.t != t
  {
    hide Find, Shaped;
  }

  lemma TornAfter(s: State, e: Event, w: nat)
    requires Shaped(s) && Enabled(s, e) && Deleters(s)
    ensures TornDown(After(s, e), w) <==> TornNext(s, e, w)
  {
    hide NextPc, NextPcOf, NextVds, NextContexts, NextEntries, NextLock;
    var r := After(s, e);
    forall t | 0 <= t < |s.pcs|
      ensures Tearing(r.pcs[t], w) <==>
              (e.Drop? && e.t == t && s.vds[e.v].refs == 1 && e.v == w)
              || (Tearing(s.pcs[t], w) && !(e.Erase? && e.t == t))
    {
      TornOfNext(s, e, t);
    }
    if e.Erase? {
      assert Tearing(s.pcs[e.t], s.pcs[e.t].v);
    }
  }

  /** What a step makes of a vdevice. */
  lemma VdNext(s: State, e: Event, v: nat)
    requires Shaped(s) && Enabled(s, e) && v < |s.vds|
    ensures NextVds(s, e)[v].destroyed == (s.vds[v].destroyed || (e.Delete? && s.pcs[e.t].v == v))
    ensures s.vds[v].refs > 0 ==> NextVds(s, e)[v].refs > 0 || (e.Drop? && e.v == v && s.vds[v].refs == 1)
    ensures s.vds[v].refs == 0 ==> NextVds(s, e)[v].refs == 0 || (e.Share? && e.v == v)
    ensures e.Drop? && e.v == v && s.vds[v].refs == 1 ==> NextVds(s, e)[v].refs == 0
  {
    hide Find;
  }

  lemma SharedIsCounted(s: State, v: nat)
    requires Shaped(s) && Counted(s) && v in s.contexts
    ensures v < |s.vds| && s.vds[v].refs > 0
  {
  }

  /** Clauses three and four of Deleters. */
  lemma VdFate(s: State, e: Event, v: nat)
    requires Shaped(s) && Enabled(s, e) && Deleters(s) && Counted(s) && v < |NextVds(s, e)|
    ensures NextVds(s, e)[v].refs > 0 ==> !NextVds(s, e)[v].destroyed
    ensures NextVds(s, e)[v].refs == 0 && !NextVds(s, e)[v].destroyed ==> TornDown(After(s, e), v)
  {
    hide TornDown, NextPc, NextPcOf, NextContexts, NextEntries, NextLock, NextPcs, Shaped, Carriers, Find;
    if v < |s.vds| {
      hide NextVds;
      VdNext(s, e, v);
      TornAfter(s, e, v);
      if e.Share? {
        SharedIsCounted(s, e.v);
      }
    }
  }

  /** Clause two. */
  lemma TornFate(s: State, e: Event, t: Thread)
    requires Shaped(s) && Enabled(s, e) && Deleters(s) && Counted(s) && t < |s.pcs| && Torn(NextPcOf(s, e, t)).Some?
    ensures var v := Torn(NextPcOf(s, e, t)).value;
      v < |s.vds| && NextVds(s, e)[v].refs == 0 && (NextVds(s, e)[v].destroyed <==> !NextPcOf(s, e, t).Deleting?)
  {
    hide TornDown, NextPc, NextPcOf, NextVds, NextContexts, NextEntries, NextLock, Carriers;
    TornOfNext(s, e, t);
    var v := Torn(NextPcOf(s, e, t)).value;
    assert PcShaped(s.pcs[t], |s.vds|);
    if e.Share? || e.Drop? {
      SharedIsCounted(s, e.v);
    }
    VdNext(s, e, v);
    if e.Delete? && s.pcs[e.t].v == v {
      assert Tearing(s.pcs[e.t], v) && Tearing(s.pcs[t], v);
    }
  }

  lemma DeletersKept(s: State, e: Event)
    requires Shaped(s) && Enabled(s, e) && Deleters(s) && Counted(s)
    ensures Shaped(After(s, e)) && Deleters(After(s, e))
  {
    hide TornDown, NextPc, NextPcOf, NextVds, NextContexts, NextEntries, NextLock, Shaped, Carriers;
    ShapedKept(s, e);
    var r := After(s, e);
    forall v | 0 <= v < |r.vds|
      ensures r.vds[v].refs > 0 ==> !r.vds[v].destroyed
      ensures r.vds[v].refs == 0 && !r.vds[v].destroyed ==> TornDown(r, v)
    {
      VdFate(s, e, v);
    }
    forall t | 0 <= t < |r.pcs| && Torn(r.pcs[t]).Some?
      ensures var v := Torn(r.pcs[t]).value;
        v < |r.vds| && r.vds[v].refs == 0 && (r.vds[v].destroyed <==> !r.pcs[t].Deleting?)
    {
      TornFate(s, e, t);
    }
    forall t, u, v | 0 <= t < |r.pcs| && 0 <= u < |r.pcs| && Tearing(r.pcs[t], v) && Tearing(r.pcs[u], v)
      ensures t == u
    {
      TornOfNext(s, e, t);
      TornOfNext(s, e, u);
    }
  }

  lemma EnteredAfter(s: State, e: Event, w: nat)
    requires Shaped(s) && Enabled(s, e) && Keyed(s) && w < |s.vds|
    ensures Entered(s, w) ==> Entered(After(s, e), w) || (e.Erase? && s.vds[s.pcs[e.t].v].key == s.vds[w].key)
    ensures e.Record? && s.pcs[e.t].v == w ==> Entered(After(s, e), w)
  {
    var r := After(s, e);
    if Entered(s, w) {
      var i :| 0 <= i < |s.entries| && EntryOf(s.entries[i], w);
      if e.Erase? {
        var j := Find(s.entries, s.vds[s.pcs[e.t].v].key);
        if j == |s.entries| {
          assert EntryOf(r.entries[i], w);
        } else if i < j {
          assert EntryOf(r.entries[i], w);
        } else if i > j {
          assert EntryOf(r.entries[i - 1], w);
        }
      } else {
        assert EntryOf(r.entries[i], w);
      }
    }
    if e.Record? && s.pcs[e.t].v == w {
      assert EntryOf(r.entries[|s.entries|], w);
    }
  }

  /** The entry a deleter erases is its own vdevice's. */
  lemma ErasesItsOwn(s: State, t: Thread)
    requires Inv(s) && t < |s.pcs| && s.pcs[t].Erasing?
    ensures var i := Find(s.entries, s.vds[s.pcs[t].v].key); i < |s.entries| && s.entries[i].1 == s.pcs[t].v
  {
    hide Counted, Awaited, Carriers;
    var v := s.pcs[t].v;
    assert Tearing(s.pcs[t], v) && TornDown(s, v);
    assert !Fresh(s, v);
    var i :| 0 <= i < |s.entries| && EntryOf(s.entries[i], v);
  }

  /** Clause one of Registered. */
  lemma EntriesLive(s: State, e: Event, w: nat)
    requires Inv(s) && Enabled(s, e) && Entered(After(s, e), w)
    ensures w < |s.vds| && (NextVds(s, e)[w].refs > 0 || TornDown(After(s, e), w))
  {
    hide Counted, Locked, Awaited, NextPc, NextVds, NextContexts, NextLock, Carriers, TornDown, Find;
    EntriesShapedKept(s, e);
    if e.Record? && s.pcs[e.t].v == w {
      CarriedIsShared(s, e.t);
    } else {
      OldEntry(s, e, w);
    }
    VdNext(s, e, w);
    TornAfter(s, e, w);
    if e.Share? {
      SharedIsCounted(s, e.v);
    }
  }

  lemma CarriedIsShared(s: State, t: Thread)
    requires Shaped(s) && Counted(s) && t < |s.pcs| && Carried(s.pcs[t]).Some?
    ensures Carried(s.pcs[t]).value < |s.vds| && s.vds[Carried(s.pcs[t]).value].refs > 0
  {
    CarrierCounts(s.pcs, t, Carried(s.pcs[t]).value);
  }

  /** An entry that stays was live, and is not the one a deleter erases. */
  lemma OldEntry(s: State, e: Event, w: nat)
    requires Inv(s) && Enabled(s, e) && Entered(After(s, e), w) && !(e.Record? && s.pcs[e.t].v == w)
    ensures w < |s.vds| && (s.vds[w].refs > 0 || TornDown(s, w))
    ensures e.Erase? ==> s.pcs[e.t].v != w
  {
    hide Counted, Locked, Awaited, Deleters, NextPc, NextVds, NextContexts, NextLock, Carriers, TornDown;
    var r := NextEntries(s, e);
    var i :| 0 <= i < |r| && EntryOf(r[i], w);
    if e.Erase? {
      ErasesItsOwn(s, e.t);
    }
  }

  /** Clause two. */
  lemma LiveEntered(s: State, e: Event, v: nat)
    requires Inv(s) && Enabled(s, e) && v < |s.vds| && (NextVds(s, e)[v].refs > 0 || TornDown(After(s, e), v))
    ensures Entered(After(s, e), v) || Fresh(After(s, e), v)
  {
    hide Counted, Awaited, NextPc, NextVds, NextContexts, NextEntries, NextLock, Carriers, TornDown, Find,
      Entered, Fresh;
    TornAfter(s, e, v);
    VdNext(s, e, v);
    EnteredAfter(s, e, v);
    if e.Share? {
      SharedIsCounted(s, e.v);
    }
    if e.Drop? && e.v == v && s.vds[v].refs == 1 {
      SharedIsCounted(s, v);
    }
    if Fresh(s, v) {
      FreshStays(s, e, v);
    } else if e.Erase? && s.vds[s.pcs[e.t].v].key == s.vds[v].key {
      SameKeySameVdevice(s, e.t, v);
    }
  }

  lemma SameKeySameVdevice(s: State, t: Thread, v: nat)
    requires Inv(s) && t < |s.pcs| && s.pcs[t].Erasing? && Entered(s, v) && s.vds[s.pcs[t].v].key == s.vds[v].key
    ensures s.pcs[t].v == v
  {
    hide Counted, Locked, Awaited, Deleters, Registered, Carriers, TornDown;
    ErasesItsOwn(s, t);
    var i :| 0 <= i < |s.entries| && EntryOf(s.entries[i], v);
  }

  lemma FreshStays(s: State, e: Event, v: nat)
    requires Shaped(s) && Locked(s) && Enabled(s, e) && Keyed(s) && v < |s.vds| && Fresh(s, v)
    ensures Entered(After(s, e), v) || Fresh(After(s, e), v)
  {
    hide Entered, Find, NextVds, NextEntries, Keyed;
    EnteredAfter(s, e, v);
  }

  /** Clause three. */
  lemma OpenersAlone(s: State, e: Event, t: Thread)
    requires Inv(s) && Enabled(s, e) && t < |s.pcs|
    requires NextPcOf(s, e, t).Opening? || NextPcOf(s, e, t).Opened?
    ensures forall i :: 0 <= i < |NextEntries(s, e)| ==> NextEntries(s, e)[i].0 != NextPcOf(s, e, t).key
  {
    hide Counted, Awaited, Deleters, NextVds, NextContexts, NextLock, Carriers, TornDown, Keyed, Entered, Fresh;
  }

  lemma RegisteredKept(s: State, e: Event)
    requires Inv(s) && Enabled(s, e)
    ensures Shaped(After(s, e)) && Registered(After(s, e))
  {
    hide Shaped, Locked, Keyed, Counted, Deleters, Registered, Awaited, Enabled, Find;
    hide NextVds, NextContexts, NextEntries, NextLock, TornDown, Entered, NextPc, NextPcOf, Fresh;
    ShapedKept(s, e);
    var r := After(s, e);
    forall i | 0 <= i < |r.entries|
      ensures r.entries[i].1 < |r.vds| && (r.vds[r.entries[i].1].refs > 0 || TornDown(r, r.entries[i].1))
    {
      EntryIsEntered(r, i);
      EntriesLive(s, e, r.entries[i].1);
    }
    forall v | 0 <= v < |r.vds| && (r.vds[v].refs > 0 || TornDown(r, v))
      ensures Entered(r, v) || Fresh(r, v)
    {
      if v < |s.vds| {
        LiveEntered(s, e, v);
      } else {
        NewIsFresh(s, e);
      }
    }
    forall t | 0 <= t < |r.pcs| && (r.pcs[t].Opening? || r.pcs[t].Opened?)
      ensures forall i :: 0 <= i < |r.entries| ==> r.entries[i].0 != r.pcs[t].key
    {
      OpenersAlone(s, e, t);
    }
    Registers(r);
  }

  lemma Registers(r: State)
    requires Shaped(r)
    requires forall i :: 0 <= i < |r.entries| ==> r.vds[r.entries[i].1].refs > 0 || TornDown(r, r.entries[i].1)
    requires forall v :: 0 <= v < |r.vds| && (r.vds[v].refs > 0 || TornDown(r, v)) ==> Entered(r, v) || Fresh(r, v)
    requires forall t :: 0 <= t < |r.pcs| && (r.pcs[t].Opening? || r.pcs[t].Opened?) ==>
          forall i :: 0 <= i < |r.entries| ==> r.entries[i].0 != r.pcs[t].key
    ensures Registered(r)
  {
    hide TornDown, Entered, Fresh;
  }

  lemma EntryIsEntered(s: State, i: nat)
    requires i < |s.entries|
    ensures Entered(s, s.entries[i].1)
  {
    assert EntryOf(s.entries[i], s.entries[i].1);
  }

  lemma NewIsFresh(s: State, e: Event)
    requires Shaped(s) && Locked(s) && Enabled(s, e) && e.Open? && e.ok
    ensures Fresh(After(s, e), |s.vds|)
  {
    hide NextEntries, NextVds, NextContexts, Find;
  }

  /** A thread that starts to wait waits for a deleter. */
  lemma WaitsForADeleter(s: State, e: Event)
    requires Inv(s) && Enabled(s, e) && e.Look? && NextPc(s, e).Waiting?
    ensures exists d :: 0 <= d < |s.pcs| && d != e.t && WillNotify(s, d, NextPc(s, e).key)
  {
    hide Counted, Locked, Awaited, Deleters, Carriers, Entered, Fresh;
    var i := Find(s.entries, s.pcs[e.t].key);
    var w := s.entries[i].1;
    assert TornDown(s, w);
    var d :| 0 <= d < |s.pcs| && Tearing(s.pcs[d], w);
    assert WillNotify(s, d, NextPc(s, e).key);
  }

  lemma StillNotifies(s: State, e: Event, d: Thread, key: Key)
    requires Shaped(s) && Enabled(s, e) && d < |s.pcs| && WillNotify(s, d, key) && !(e.Notify? && e.t == d)
    ensures Shaped(After(s, e)) && WillNotify(After(s, e), d, key)
  {
    hide NextVds, NextContexts, NextEntries, NextLock, Find;
    ShapedKept(s, e);
  }

  lemma AwaitedKept(s: State, e: Event)
    requires Inv(s) && Enabled(s, e)
    ensures Shaped(After(s, e)) && Awaited(After(s, e))
  {
    hide Shaped, Locked, Keyed, Counted, Deleters, Registered, NextPc;
    hide NextVds, NextContexts, NextEntries, NextLock, WillNotify;
    ShapedKept(s, e);
    var r := After(s, e);
    forall t | 0 <= t < |r.pcs| && r.pcs[t].Waiting?
      ensures exists d :: 0 <= d < |r.pcs| && WillNotify(r, d, r.pcs[t].key)
    {
      NewWaiter(s, e, t);
      if !e.Share? && e.t == t {
        WaitsForADeleter(s, e);
      }
      var d :| 0 <= d < |s.pcs| && WillNotify(s, d, r.pcs[t].key);
      StillNotifies(s, e, d, r.pcs[t].key);
    }
  }

  lemma NewWaiter(s: State, e: Event, t: Thread)
    requires Shaped(s) && Enabled(s, e) && t < |s.pcs| && NextPcOf(s, e, t).Waiting?
    ensures !e.Notify?
    ensures !e.Share? && e.t == t ==> e.Look? && NextPc(s, e).Waiting?
    ensures e.Share? || e.t != t ==> NextPcOf(s, e, t) == s.pcs[t]
  {
  }

  lemma StepKeepsInv(s: State, e: Event)
    requires Inv(s) && Enabled(s, e)
    ensures Inv(After(s, e))
  {
    hide Shaped, Locked, Keyed, Counted, Deleters, Registered, Awaited, After, Enabled;
    LockedKept(s, e);
    KeyedKept(s, e);
    CountedKept(s, e);
    DeletersKept(s, e);
    RegisteredKept(s, e);
    AwaitedKept(s, e);
  }
}
