/** The search for a name that is not taken ends: each name passed over was
    there before the search, and no writer adds one ahead of it. */
module AtomicWriteSearch {
  import opened AtomicWrite
  import opened AtomicWriteRuns

  /** Running processes have different pids, and a running writer's process
      runs; a number is taken once. */
  ghost predicate NumbersOk(s: State) {
    && (forall w :: 0 <= w < |s.writers| ==> s.writers[w].proc < |s.procs|)
    && (forall p, q :: 0 <= p < |s.procs| && 0 <= q < |s.procs| && SamePid(s.procs[p], s.procs[q]) ==> p == q)
    && (forall w :: 0 <= w < |s.writers| && Running(s.writers[w].pc) ==> s.procs[s.writers[w].proc].alive)
    && (forall w :: 0 <= w < |s.writers| && s.writers[w].pc.Took? ==>
          s.writers[w].pc.n < s.procs[s.writers[w].proc].counter)
    && (forall w, u :: 0 <= w < |s.writers| && 0 <= u < |s.writers| && SameNumber(s.writers[w], s.writers[u]) ==>
          w == u)
  }

  predicate SamePid(p: Process, q: Process) { p.alive && q.alive && p.pid == q.pid }

  predicate SameNumber(w: Writer, u: Writer) { w.pc.Took? && u.pc.Took? && w.proc == u.proc && w.pc.n == u.pc.n }

  /** What a step makes of a process. */
  lemma ProcAfter(s: State, e: Event, p: nat)
    requires Enabled(s, e) && p < |After(s, e).procs|
    ensures |After(s, e).procs| == |s.procs| + (if e.Spawn? then 1 else 0)
    ensures p >= |s.procs| ==> After(s, e).procs[p] == Process(e.pid, 0, true)
    ensures p < |s.procs| ==> After(s, e).procs[p].pid == s.procs[p].pid
    ensures p < |s.procs| && After(s, e).procs[p].alive ==> s.procs[p].alive
    ensures p < |s.procs| ==> s.procs[p].counter <= After(s, e).procs[p].counter
    ensures p < |s.procs| && !e.Kill? && !e.PowerLoss? ==> After(s, e).procs[p].alive == s.procs[p].alive
    ensures e.Take? && s.writers[e.w].proc == p ==> After(s, e).procs[p].counter == s.procs[p].counter + 1
  {
    hide Put, TempName, Running;
  }

  /** Which writers have a number after a step. */
  lemma TookAfter(s: State, e: Event, w: nat)
    requires Enabled(s, e) && w < |After(s, e).writers| && After(s, e).writers[w].pc.Took?
    ensures w < |s.writers|
    ensures
      if e.Take? && e.w == w then HasProcess(s, w) && After(s, e).writers[w].pc.n == s.procs[s.writers[w].proc].counter
      else s.writers[w].pc == After(s, e).writers[w].pc
  {
    hide Put, TempName;
  }

  lemma RunningAfter(s: State, e: Event, w: nat)
    requires Enabled(s, e) && NumbersOk(s) && w < |After(s, e).writers| && Running(After(s, e).writers[w].pc)
    ensures After(s, e).writers[w].proc < |s.procs| && s.procs[After(s, e).writers[w].proc].alive
    ensures w < |s.writers| ==> Running(s.writers[w].pc)
    ensures e.Kill? ==> e.p != After(s, e).writers[w].proc
    ensures !e.PowerLoss?
  {
    hide Put, TempName;
  }

  lemma NumbersKept(s: State, e: Event)
    requires Enabled(s, e) && NumbersOk(s)
    ensures NumbersOk(After(s, e))
  {
    hide After;
    var r := After(s, e);
    CountsAfter(s, e);
    forall w | 0 <= w < |r.writers|
      ensures r.writers[w].proc < |r.procs|
      ensures Running(r.writers[w].pc) ==> r.procs[r.writers[w].proc].alive
      ensures r.writers[w].pc.Took? ==> r.writers[w].pc.n < r.procs[r.writers[w].proc].counter
    {
      WriterAfter(s, e, w);
      ProcAfter(s, e, r.writers[w].proc);
      if Running(r.writers[w].pc) {
        RunningAfter(s, e, w);
        AliveStays(s, e, r.writers[w].proc);
      }
      if r.writers[w].pc.Took? {
        TookAfter(s, e, w);
      }
    }
    forall p, q | 0 <= p < |r.procs| && 0 <= q < |r.procs| && SamePid(r.procs[p], r.procs[q])
      ensures p == q
    {
      ProcAfter(s, e, p);
      ProcAfter(s, e, q);
    }
    forall w, u | 0 <= w < |r.writers| && 0 <= u < |r.writers| && SameNumber(r.writers[w], r.writers[u])
      ensures w == u
    {
      TookAfter(s, e, w);
      TookAfter(s, e, u);
      WriterAfter(s, e, w);
      WriterAfter(s, e, u);
    }
  }

  lemma AliveStays(s: State, e: Event, p: nat)
    requires Enabled(s, e) && p < |s.procs| && s.procs[p].alive && !(e.Kill? && e.p == p) && !e.PowerLoss?
    ensures p < |After(s, e).procs| && After(s, e).procs[p].alive
  {
    hide Put, TempName;
  }

  lemma {:induction false} EveryRunKeepsNumbers(dests: set<Name>, trace: seq<State>, events: seq<Event>, k: nat)
    requires Run(dests, trace, events) && k < |trace|
    ensures NumbersOk(trace[k])
  {
    hide NumbersOk, After;
    if k == 0 {
      NumbersStart(trace[0]);
    } else {
      EveryRunKeepsNumbers(dests, trace, events, k - 1);
      NumbersKept(trace[k - 1], events[k - 1]);
    }
  }

  lemma NumbersStart(s: State)
    requires Starts(s)
    ensures NumbersOk(s)
  {
  }

  // ---- The search ----

  ghost predicate IsAhead(s: State, w: nat, x: Name)
    requires HasProcess(s, w)
  {
    exists n :: n >= s.procs[s.writers[w].proc].counter && x == NameOf(s, w, n)
  }

  /** The names there that writer w's process has yet to try. */
  ghost function Ahead(s: State, w: nat): set<Name>
    requires HasProcess(s, w)
  {
    set x | x in s.dir && IsAhead(s, w, x)
  }

  /** The name tried now is taken. */
  predicate Blocked(s: State, w: nat)
    requires HasProcess(s, w)
  {
    s.writers[w].pc.Took? && NameOf(s, w, s.writers[w].pc.n) in s.dir
  }

  /** The most names writer w can still find taken. */
  ghost function TriesLeft(s: State, w: nat): nat
    requires HasProcess(s, w)
  {
    |Ahead(s, w)| + (if Blocked(s, w) then 1 else 0)
  }

  /** A name that comes to be is another's, or below the counter, or no
      temporary name at all. */
  lemma NewNamesAreNotAhead(dests: set<Name>, s: State, e: Event, w: nat, n: nat)
    requires Apart(dests) && WritersOk(dests, s) && NumbersOk(s) && Allowed(dests, s, e)
    requires HasProcess(s, w) && Running(s.writers[w].pc)
    requires NameOf(s, w, n) !in s.dir && NameOf(s, w, n) in After(s, e).dir
    ensures Creates(e) && HasProcess(s, e.w) && s.writers[e.w].proc == s.writers[w].proc
    ensures s.writers[e.w].pc.Took? && s.writers[e.w].pc.n == n
    ensures n < s.procs[s.writers[w].proc].counter
  {
    hide After, Apart, TempName;
    var x := NameOf(s, w, n);
    DirAfter(s, e, x);
    CountsAfter(s, e);
    if e.Rename? && e.ok && x == s.writers[e.w].dest {
      NoDestIsTemp(dests, s.writers[e.w].dest, s.writers[w].dest, s.procs[s.writers[w].proc].pid, n);
    } else {
      TempNamesAreApart(s.writers[w].dest, s.procs[s.writers[w].proc].pid, n,
                        s.writers[e.w].dest, s.procs[s.writers[e.w].proc].pid, s.writers[e.w].pc.n);
    }
  }

  lemma NoDestIsTemp(dests: set<Name>, d: Name, d': Name, p: nat, n: nat)
    requires Apart(dests) && d in dests && d' in dests
    ensures d != TempName(d', p, n)
  {
  }

  /** What stays of writer w in a step that leaves it running. */
  lemma SameWriter(s: State, e: Event, w: nat)
    requires Enabled(s, e) && NumbersOk(s) && w < |s.writers| && w < |After(s, e).writers|
      && Running(After(s, e).writers[w].pc)
    ensures HasProcess(s, w) && HasProcess(After(s, e), w) && Running(s.writers[w].pc)
    ensures After(s, e).writers[w].dest == s.writers[w].dest && After(s, e).writers[w].proc == s.writers[w].proc
    ensures var p := s.writers[w].proc;
      After(s, e).procs[p].pid == s.procs[p].pid && s.procs[p].counter <= After(s, e).procs[p].counter
    ensures forall n :: NameOf(After(s, e), w, n) == NameOf(s, w, n)
  {
    hide After, TempName;
    WriterAfter(s, e, w);
    RunningAfter(s, e, w);
    CountsAfter(s, e);
    ProcAfter(s, e, s.writers[w].proc);
  }

  lemma AheadFalls(dests: set<Name>, s: State, e: Event, w: nat)
    requires Apart(dests) && WritersOk(dests, s) && NumbersOk(s) && Allowed(dests, s, e)
    requires w < |s.writers| && w < |After(s, e).writers| && Running(After(s, e).writers[w].pc)
    ensures HasProcess(s, w) && HasProcess(After(s, e), w)
    ensures Ahead(After(s, e), w) <= Ahead(s, w)
    ensures e == Take(w) && Blocked(After(s, e), w) ==>
      var x := NameOf(s, w, s.procs[s.writers[w].proc].counter); x in Ahead(s, w) && x !in Ahead(After(s, e), w)
  {
    hide After, NameOf, Apart, Enabled, WritersOk, NumbersOk;
    SameWriter(s, e, w);
    var r := After(s, e);
    forall x | x in r.dir && IsAhead(r, w, x)
      ensures x in Ahead(s, w)
    {
      var n :| n >= r.procs[r.writers[w].proc].counter && x == NameOf(r, w, n);
      if x !in s.dir {
        NewNamesAreNotAhead(dests, s, e, w, n);
      }
    }
    if e == Take(w) && Blocked(r, w) {
      TakenIsBehind(s, w);
    }
  }

  lemma TakenIsBehind(s: State, w: nat)
    requires Enabled(s, Take(w)) && HasProcess(After(s, Take(w)), w) && Blocked(After(s, Take(w)), w)
    ensures HasProcess(s, w)
    ensures var x := NameOf(s, w, s.procs[s.writers[w].proc].counter);
      x in Ahead(s, w) && x !in Ahead(After(s, Take(w)), w)
  {
    hide TempName;
    var r, c := After(s, Take(w)), s.procs[s.writers[w].proc].counter;
    var x := NameOf(s, w, c);
    assert r.dir == s.dir && x in s.dir;
    assert IsAhead(s, w, x);
    if IsAhead(r, w, x) {
      var n :| n >= r.procs[r.writers[w].proc].counter && x == NameOf(r, w, n);
      TempNamesAreApart(s.writers[w].dest, s.procs[s.writers[w].proc].pid, c,
                        s.writers[w].dest, s.procs[s.writers[w].proc].pid, n);
    }
  }

  lemma SmallerSet<T>(a: set<T>, b: set<T>)
    requires a <= b
    ensures |a| <= |b|
    ensures forall x :: x in b && x !in a ==> |a| < |b|
  {
    assert b == a + (b - a);
    assert forall x :: x in b && x !in a ==> x in b - a;
  }

  /** A step leaves no more names to pass over, and passing one leaves fewer. */
  lemma TriesFall(dests: set<Name>, s: State, e: Event, w: nat)
    requires Apart(dests) && WritersOk(dests, s) && NumbersOk(s) && Allowed(dests, s, e)
    requires w < |s.writers| && w < |After(s, e).writers| && Running(After(s, e).writers[w].pc)
    ensures HasProcess(s, w) && HasProcess(After(s, e), w)
    ensures TriesLeft(After(s, e), w) + (if e == Create(w, Exists) then 1 else 0) <= TriesLeft(s, w)
  {
    hide After, NameOf, Apart, Enabled, WritersOk, NumbersOk, Ahead;
    SameWriter(s, e, w);
    AheadFalls(dests, s, e, w);
    SmallerSet(Ahead(After(s, e), w), Ahead(s, w));
    if Blocked(After(s, e), w) && e != Take(w) {
      StillBlocked(dests, s, e, w);
    }
    if e == Create(w, Exists) {
      PassedWasBlocked(s, w);
    }
  }

  lemma StillBlocked(dests: set<Name>, s: State, e: Event, w: nat)
    requires Apart(dests) && WritersOk(dests, s) && NumbersOk(s) && Allowed(dests, s, e) && e != Take(w)
    requires w < |s.writers| && HasProcess(After(s, e), w) && Blocked(After(s, e), w)
    ensures HasProcess(s, w) && Blocked(s, w)
    ensures e != Create(w, Exists)
  {
    hide After, Apart, TempName, WritersOk;
    TookAfter(s, e, w);
    SameWriter(s, e, w);
    if NameOf(s, w, s.writers[w].pc.n) !in s.dir {
      NewNamesAreNotAhead(dests, s, e, w, s.writers[w].pc.n);
      CreatorMovesOn(s, e);
    }
    if e == Create(w, Exists) {
      PassedWasBlocked(s, w);
    }
  }

  lemma CreatorMovesOn(s: State, e: Event)
    requires Enabled(s, e) && Creates(e)
    ensures e.w < |After(s, e).writers| && !After(s, e).writers[e.w].pc.Took?
  {
  }

  lemma PassedWasBlocked(s: State, w: nat)
    requires Enabled(s, Create(w, Exists))
    ensures HasProcess(s, w) && Blocked(s, w)
    ensures w < |After(s, Create(w, Exists)).writers| && After(s, Create(w, Exists)).writers[w].pc.Ready?
  {
  }

  /** How often writer w finds its name taken, from event k on. */
  function Passed(events: seq<Event>, w: nat, k: nat): nat
    requires k <= |events|
    decreases |events| - k
  {
    if k == |events| then 0 else (if events[k] == Create(w, Exists) then 1 else 0) + Passed(events, w, k + 1)
  }

  lemma {:induction false} StoppedPassesNone(dests: set<Name>, trace: seq<State>, events: seq<Event>, w: nat, k: nat)
    requires Run(dests, trace, events) && k <= |events| && w < |trace[k].writers| && !Running(trace[k].writers[w].pc)
    ensures Passed(events, w, k) == 0
    decreases |events| - k
  {
    hide After;
    if k < |events| {
      StaysStopped(trace[k], events[k], w);
      StoppedPassesNone(dests, trace, events, w, k + 1);
    }
  }

  lemma StaysStopped(s: State, e: Event, w: nat)
    requires Enabled(s, e) && w < |s.writers| && !Running(s.writers[w].pc)
    ensures w < |After(s, e).writers| && !Running(After(s, e).writers[w].pc)
    ensures e != Create(w, Exists)
  {
    hide Put, TempName;
  }

  /** From any point of any run a writer passes over no more names than were
      there ahead of it: then it has one, or has returned. */
  lemma {:induction false} TheSearchEnds(dests: set<Name>, trace: seq<State>, events: seq<Event>, w: nat, k: nat)
    requires Apart(dests) && Run(dests, trace, events) && k <= |events| && w < |trace[k].writers|
    ensures HasProcess(trace[k], w) && Passed(events, w, k) <= TriesLeft(trace[k], w)
    decreases |events| - k
  {
    hide After, TriesLeft, Apart, Inv, Starts;
    EveryRunKeepsNumbers(dests, trace, events, k);
    WritersStand(dests, trace, events, k);
    assert HasProcess(trace[k], w) by { NumbersGiveProcess(trace[k], w); }
    if k < |events| {
      hide NumbersOk, WritersOk, Running;
      CountsAfter(trace[k], events[k]);
      if !Running(trace[k + 1].writers[w].pc) {
        StoppedPassesNone(dests, trace, events, w, k + 1);
        OnePassLeft(trace[k], events[k], w);
      } else {
        TheSearchEnds(dests, trace, events, w, k + 1);
        TriesFall(dests, trace[k], events[k], w);
      }
    }
  }

  lemma NumbersGiveProcess(s: State, w: nat)
    requires NumbersOk(s) && w < |s.writers|
    ensures HasProcess(s, w)
  {
  }

  lemma OnePassLeft(s: State, e: Event, w: nat)
    requires Enabled(s, e) && HasProcess(s, w)
    ensures e == Create(w, Exists) ==> TriesLeft(s, w) >= 1
  {
    hide Ahead;
  }

  lemma WritersStand(dests: set<Name>, trace: seq<State>, events: seq<Event>, k: nat)
    requires Apart(dests) && Run(dests, trace, events) && k < |trace|
    ensures WritersOk(dests, trace[k])
  {
    hide Apart, Run;
    EveryRunKeepsInv(dests, trace, events, k);
  }
}
