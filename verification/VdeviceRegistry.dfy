/** core/hailo/backend.cpp's shared_vdevice and the deleter of what it shares,
    as the steps of any number of threads. Between two steps of one thread the
    others may take any number of theirs; what a thread does while it has the
    lock is still separate steps, since contexts are dropped without it. */
module VdeviceRegistry {

  /** The text of a device's id: what the registry tells devices apart by. */
  type Key = string

  type Thread = nat

  datatype Option<T> = None | Some(value: T)

  /** A vdevice: the device it opens, the shared pointers to it, and whether
      its destructor has ended. A weak pointer to it locks while refs > 0. */
  datatype Vd = Vd(key: Key, refs: nat, destroyed: bool)

  /** Where a thread is. */
  datatype Pc =
    | Idle
    | Calling(key: Key)                     // shared_vdevice, before the lock
    | Looking(key: Key)                     // has the lock, at the top of the loop
    | Waiting(key: Key)                     // in vdevices_gone.wait, the lock let go
    | Woken(key: Key)                       // awake in the wait, the lock not yet taken
    | Opening(key: Key)                     // has the lock and found no entry
    | Opened(key: Key, v: nat)              // has the lock and a vdevice not yet entered
    | Leaving(key: Key, got: Option<nat>)   // has the lock, about to return
    | Deleting(v: nat)                      // in the deleter, without the lock
    | Locking(v: nat)                       // the vdevice destroyed, before the lock
    | Erasing(v: nat)                       // has the lock, before the erase
    | Notifying(v: nat)                     // has the lock, the entry erased
    | Unlocking                             // has the lock, the waiters told

  datatype State = State(
    lock: Option<Thread>,
    entries: seq<(Key, nat)>,
    vds: seq<Vd>,               // every vdevice made, by the order they were
    contexts: multiset<nat>,    // the vdevices the callers' contexts and models share
    pcs: seq<Pc>)

  datatype Event =
    // What callers and the system do
    | Call(t: Thread, key: Key)
    | Share(v: nat)             // a model keeps its context's vdevice
    | Drop(t: Thread, v: nat)   // a context or a model is released
    | Spurious(t: Thread)       // a wait ends though nothing was notified
    // What the threads do by themselves
    | Acquire(t: Thread)
    | Look(t: Thread)
    | Open(t: Thread, ok: bool)
    | Record(t: Thread)
    | Leave(t: Thread)
    | Delete(t: Thread)
    | Erase(t: Thread)
    | Notify(t: Thread)
    | Unlock(t: Thread)

  predicate Own(e: Event) { !(e.Call? || e.Share? || e.Drop? || e.Spurious?) }

  /** The first entry of the key, or the end. */
  function Find(entries: seq<(Key, nat)>, key: Key): (i: nat)
    ensures i <= |entries|
    ensures i < |entries| ==> entries[i].0 == key
    ensures forall j :: 0 <= j < i ==> entries[j].0 != key
  {
    if entries == [] || entries[0].0 == key then 0 else 1 + Find(entries[1..], key)
  }

  function Without<T>(s: seq<T>, i: nat): (r: seq<T>)
    requires i < |s|
    ensures |r| == |s| - 1
    ensures forall j :: 0 <= j < |r| ==> r[j] == if j < i then s[j] else s[j + 1]
  {
    s[..i] + s[i + 1..]
  }

  function Wake(pcs: seq<Pc>): (r: seq<Pc>)
    ensures |r| == |pcs|
    ensures forall t :: 0 <= t < |pcs| ==> r[t] == if pcs[t].Waiting? then Woken(pcs[t].key) else pcs[t]
  {
    seq(|pcs|, t requires 0 <= t < |pcs| => if pcs[t].Waiting? then Woken(pcs[t].key) else pcs[t])
  }

  /** The vdevice a thread keeps alive before its caller has it. */
  function Carried(pc: Pc): Option<nat> {
    match pc
    case Opened(_, v) => Some(v)
    case Leaving(_, got) => got
    case _ => None
  }

  /** The vdevice a thread is tearing down, its entry not yet erased. */
  function Torn(pc: Pc): Option<nat> {
    match pc
    case Deleting(v) => Some(v)
    case Locking(v) => Some(v)
    case Erasing(v) => Some(v)
    case _ => None
  }

  predicate HasLock(pc: Pc) {
    pc.Looking? || pc.Opening? || pc.Opened? || pc.Leaving? || pc.Erasing? || pc.Notifying? || pc.Unlocking?
  }

  /** Every number in the state names something. */
  predicate Shaped(s: State) {
    && (forall i :: 0 <= i < |s.entries| ==> s.entries[i].1 < |s.vds|)
    && (forall v :: v in s.contexts ==> v < |s.vds|)
    && (forall t :: 0 <= t < |s.pcs| ==> PcShaped(s.pcs[t], |s.vds|))
  }

  predicate PcShaped(pc: Pc, n: nat) {
    && (Carried(pc).Some? ==> Carried(pc).value < n)
    && (Torn(pc).Some? ==> Torn(pc).value < n)
    && (pc.Notifying? ==> pc.v < n)
  }

  predicate Enabled(s: State, e: Event)
    requires Shaped(s)
  {
    if e.Share? then e.v in s.contexts
    else
      e.t < |s.pcs| &&
      var pc := s.pcs[e.t];
      match e
      case Call(_, _) => pc.Idle?
      case Drop(_, v) => pc.Idle? && v in s.contexts && s.vds[v].refs > 0
      case Spurious(_) => pc.Waiting?
      case Acquire(_) => s.lock.None? && (pc.Calling? || pc.Woken? || pc.Locking?)
      case Look(_) => pc.Looking?
      case Open(_, _) => pc.Opening?
      case Record(_) => pc.Opened?
      case Leave(_) => pc.Leaving?
      case Delete(_) => pc.Deleting?
      case Erase(_) => pc.Erasing?
      case Notify(_) => pc.Notifying?
      case Unlock(_) => pc.Unlocking?
  }

  /** Where thread e.t is after the event. */
  function NextPc(s: State, e: Event): Pc
    requires Shaped(s) && Enabled(s, e) && !e.Share?
  {
    var pc := s.pcs[e.t];
    match e
    case Call(_, key) => Calling(key)
    case Drop(_, v) => if s.vds[v].refs == 1 then Deleting(v) else Idle   // the last to let go runs the deleter
    case Spurious(_) => Woken(pc.key)
    case Acquire(_) => if pc.Locking? then Erasing(pc.v) else Looking(pc.key)
    case Look(_) =>
      var i := Find(s.entries, pc.key);
      if i == |s.entries| then Opening(pc.key)
      else if s.vds[s.entries[i].1].refs > 0 then Leaving(pc.key, Some(s.entries[i].1))
      else Waiting(pc.key)
    case Open(_, ok) => if ok then Opened(pc.key, |s.vds|) else Leaving(pc.key, None)
    case Record(_) => Leaving(pc.key, Some(pc.v))
    case Leave(_) => Idle
    case Delete(_) => Locking(pc.v)
    case Erase(_) => Notifying(pc.v)
    case Notify(_) => Unlocking
    case Unlock(_) => Idle
  }

  /** Where any thread is after the event. */
  function NextPcOf(s: State, e: Event, t: Thread): Pc
    requires Shaped(s) && Enabled(s, e) && t < |s.pcs|
  {
    if !e.Share? && t == e.t then NextPc(s, e)
    else if e.Notify? && s.pcs[t].Waiting? then Woken(s.pcs[t].key)
    else s.pcs[t]
  }

  function NextPcs(s: State, e: Event): (r: seq<Pc>)
    requires Shaped(s) && Enabled(s, e)
    ensures |r| == |s.pcs|
    ensures forall t :: 0 <= t < |r| ==> r[t] == NextPcOf(s, e, t)
  {
    if e.Share? then s.pcs
    else (if e.Notify? then Wake(s.pcs) else s.pcs)[e.t := NextPc(s, e)]
  }

  function NextLock(s: State, e: Event): Option<Thread>
    requires Shaped(s) && Enabled(s, e)
  {
    if e.Acquire? then Some(e.t)
    else if e.Leave? || e.Unlock? || (e.Look? && NextPc(s, e).Waiting?) then None
    else s.lock
  }

  function NextEntries(s: State, e: Event): seq<(Key, nat)>
    requires Shaped(s) && Enabled(s, e)
  {
    if e.Record? then s.entries + [(s.pcs[e.t].key, s.pcs[e.t].v)]
    else if e.Erase? then
      var i := Find(s.entries, s.vds[s.pcs[e.t].v].key);
      if i < |s.entries| then Without(s.entries, i) else s.entries
    else s.entries
  }

  function Refs(vds: seq<Vd>, v: nat, more: int): seq<Vd>
    requires v < |vds| && vds[v].refs + more >= 0
  {
    vds[v := vds[v].(refs := vds[v].refs + more)]
  }

  function NextVds(s: State, e: Event): (r: seq<Vd>)
    requires Shaped(s) && Enabled(s, e)
    ensures |r| == |s.vds| + (if e.Open? && e.ok then 1 else 0)
    ensures forall v :: 0 <= v < |s.vds| ==> r[v].key == s.vds[v].key
  {
    if e.Share? then Refs(s.vds, e.v, 1)
    else if e.Drop? then Refs(s.vds, e.v, -1)
    else if e.Look? && NextPc(s, e).Leaving? then Refs(s.vds, NextPc(s, e).got.value, 1)
    else if e.Open? && e.ok then s.vds + [Vd(s.pcs[e.t].key, 1, false)]
    else if e.Delete? then s.vds[s.pcs[e.t].v := s.vds[s.pcs[e.t].v].(destroyed := true)]
    else s.vds
  }

  function NextContexts(s: State, e: Event): multiset<nat>
    requires Shaped(s) && Enabled(s, e)
  {
    if e.Share? then s.contexts + multiset{e.v}
    else if e.Drop? then s.contexts - multiset{e.v}
    else if e.Leave? && s.pcs[e.t].got.Some? then s.contexts + multiset{s.pcs[e.t].got.value}
    else s.contexts
  }

  function After(s: State, e: Event): State
    requires Shaped(s) && Enabled(s, e)
  {
    State(NextLock(s, e), NextEntries(s, e), NextVds(s, e), NextContexts(s, e), NextPcs(s, e))
  }

  predicate Starts(s: State) {
    s.lock.None? && s.entries == [] && s.vds == [] && s.contexts == multiset{}
    && forall t :: 0 <= t < |s.pcs| ==> s.pcs[t] == Idle
  }

  /** A run: each event was one its state allows. */
  ghost predicate Run(trace: seq<State>, events: seq<Event>) {
    && |trace| == |events| + 1 && Starts(trace[0])
    && forall k :: 0 <= k < |events| ==>
         Shaped(trace[k]) && Enabled(trace[k], events[k]) && trace[k + 1] == After(trace[k], events[k])
  }

  // ---- What every run keeps ----

  function Carries(pc: Pc, v: nat): nat { if Carried(pc) == Some(v) then 1 else 0 }

  /** How many threads keep v alive for a caller to come. */
  function Carriers(pcs: seq<Pc>, v: nat): nat {
    if pcs == [] then 0 else Carriers(pcs[..|pcs| - 1], v) + Carries(pcs[|pcs| - 1], v)
  }

  /** The thread with the lock is the one the lock says. */
  predicate Locked(s: State) {
    && (s.lock.Some? ==> s.lock.value < |s.pcs|)
    && forall t :: 0 <= t < |s.pcs| ==> (HasLock(s.pcs[t]) <==> s.lock == Some(t))
  }

  /** One entry a key, and each entry's vdevice is one of its device. */
  predicate Keyed(s: State)
    requires Shaped(s)
  {
    && (forall i, j :: 0 <= i < j < |s.entries| ==> s.entries[i].0 != s.entries[j].0)
    && (forall i :: 0 <= i < |s.entries| ==> s.entries[i].0 == s.vds[s.entries[i].1].key)
    && (forall t :: 0 <= t < |s.pcs| && Carried(s.pcs[t]).Some? ==> s.vds[Carried(s.pcs[t]).value].key == s.pcs[t].key)
  }

  /** The count of each vdevice is the pointers there are to it. */
  ghost predicate Counted(s: State)
    requires Shaped(s)
  {
    forall v :: 0 <= v < |s.vds| ==> s.vds[v].refs == s.contexts[v] + Carriers(s.pcs, v)
  }

  predicate Tearing(pc: Pc, v: nat) { Torn(pc) == Some(v) }

  ghost predicate TornDown(s: State, v: nat) { exists t :: 0 <= t < |s.pcs| && Tearing(s.pcs[t], v) }

  /** Who tears a vdevice down: one thread, once, when nobody shares it, and
      destroyed means out of the destructor. */
  ghost predicate Deleters(s: State)
    requires Shaped(s)
  {
    && (forall t, u, v :: 0 <= t < |s.pcs| && 0 <= u < |s.pcs| && Tearing(s.pcs[t], v) && Tearing(s.pcs[u], v) ==>
          t == u)
    && (forall t :: 0 <= t < |s.pcs| && Torn(s.pcs[t]).Some? ==>
          var v := Torn(s.pcs[t]).value; s.vds[v].refs == 0 && (s.vds[v].destroyed <==> !s.pcs[t].Deleting?))
    && (forall v :: 0 <= v < |s.vds| && s.vds[v].refs > 0 ==> !s.vds[v].destroyed)
    && (forall v :: 0 <= v < |s.vds| && s.vds[v].refs == 0 && !s.vds[v].destroyed ==> TornDown(s, v))
  }

  ghost predicate Entered(s: State, v: nat) { exists i :: 0 <= i < |s.entries| && EntryOf(s.entries[i], v) }

  predicate EntryOf(e: (Key, nat), v: nat) { e.1 == v }

  /** An entry is there from just after its vdevice is made until the deleter
      that destroyed it erases it. */
  ghost predicate Registered(s: State)
    requires Shaped(s)
  {
    && (forall i :: 0 <= i < |s.entries| ==> s.vds[s.entries[i].1].refs > 0 || TornDown(s, s.entries[i].1))
    && (forall v :: 0 <= v < |s.vds| && (s.vds[v].refs > 0 || TornDown(s, v)) ==> Entered(s, v) || Fresh(s, v))
    && (forall t :: 0 <= t < |s.pcs| && (s.pcs[t].Opening? || s.pcs[t].Opened?) ==>
          forall i :: 0 <= i < |s.entries| ==> s.entries[i].0 != s.pcs[t].key)
  }

  /** v is made and about to be entered, by the thread with the lock. */
  predicate Fresh(s: State, v: nat) {
    s.lock.Some? && s.lock.value < |s.pcs| && s.pcs[s.lock.value].Opened? && s.pcs[s.lock.value].v == v
  }

  /** The thread is yet to erase and notify for the key. */
  predicate WillNotify(s: State, d: Thread, key: Key)
    requires Shaped(s) && d < |s.pcs|
  {
    || (Torn(s.pcs[d]).Some? && s.vds[Torn(s.pcs[d]).value].key == key)
    || (s.pcs[d].Notifying? && s.vds[s.pcs[d].v].key == key)
  }

  /** Whoever waits, waits for a deleter that is still to notify. */
  ghost predicate Awaited(s: State)
    requires Shaped(s)
  {
    forall t :: 0 <= t < |s.pcs| && s.pcs[t].Waiting? ==> exists d :: 0 <= d < |s.pcs| && WillNotify(s, d, s.pcs[t].key)
  }

  ghost predicate Inv(s: State) {
    Shaped(s) && Locked(s) && Keyed(s) && Counted(s) && Deleters(s) && Registered(s) && Awaited(s)
  }
}
