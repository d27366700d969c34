/** When a call that has returned leaves its temporary file behind. */
module AtomicWriteLeftovers {
  import opened AtomicWrite
  import opened AtomicWriteRuns

  /** The file that writer w made is at x, a name nobody writes. */
  ghost predicate LeftAt(dests: set<Name>, s: State, w: nat, x: Name) {
    && x !in dests && x in s.dir && s.dir[x].Regular? && s.dir[x].ino < |s.files|
    && s.files[s.dir[x].ino].maker == Some(w)
  }

  /** Writer w has seen the removal of its file refused. */
  predicate Refused(events: seq<Event>, k: nat, w: nat)
    requires k <= |events|
  {
    exists j :: 0 <= j < k && events[j] == Remove(w, false)
  }

  predicate HasLeft(s: State, w: nat) { w < |s.writers| && s.writers[w].pc.Left? }

  lemma LeftAfter(s: State, e: Event, w: nat)
    requires Enabled(s, e)
    ensures HasLeft(After(s, e), w) <==> HasLeft(s, w) || e == Remove(w, false)
  {
    hide Put, TempName;
  }

  lemma {:induction false} LeftJustWhenRefused(dests: set<Name>, trace: seq<State>, events: seq<Event>, k: nat, w: nat)
    requires Run(dests, trace, events) && k < |trace|
    ensures HasLeft(trace[k], w) <==> Refused(events, k, w)
  {
    hide After, Enabled, HasLeft;
    if k == 0 {
      assert !HasLeft(trace[0], w) by {
        NoWriterYet(trace[0], w);
      }
    } else {
      LeftJustWhenRefused(dests, trace, events, k - 1, w);
      LeftAfter(trace[k - 1], events[k - 1], w);
      assert Refused(events, k - 1, w) ==> Refused(events, k, w);
    }
  }

  lemma NoWriterYet(s: State, w: nat)
    requires Starts(s)
    ensures !HasLeft(s, w)
  {
  }

  /** A call that has returned left a file behind just when the removal of it
      was refused. */
  lemma OnlyARefusedRemovalLeaves(dests: set<Name>, trace: seq<State>, events: seq<Event>, k: nat, w: nat)
    requires Apart(dests) && Run(dests, trace, events) && k < |trace| && w < |trace[k].writers|
    requires trace[k].writers[w].pc.Returned? || trace[k].writers[w].pc.Left?
    ensures (exists x :: LeftAt(dests, trace[k], w, x)) <==> Refused(events, k, w)
  {
    hide Run, Inv, Apart, After, Allowed, Refused;
    EveryRunKeepsInv(dests, trace, events, k);
    LeftJustWhenRefused(dests, trace, events, k, w);
    RunStarts(dests, trace, events);
    LeftIsThere(trace[0], dests, trace[k], w);
  }

  lemma RunStarts(dests: set<Name>, trace: seq<State>, events: seq<Event>)
    requires Run(dests, trace, events)
    ensures |trace| > 0 && Starts(trace[0])
  {
  }

  lemma LeftIsThere(start: State, dests: set<Name>, s: State, w: nat)
    requires Apart(dests) && Starts(start) && Inv(start, dests, s) && w < |s.writers|
    requires s.writers[w].pc.Returned? || s.writers[w].pc.Left?
    ensures (exists x :: LeftAt(dests, s, w, x)) <==> s.writers[w].pc.Left?
  {
    if s.writers[w].pc.Left? {
      assert HeldOk(start, s, w);
      var x := s.writers[w].pc.tmp;
      TempIsNoDest(dests, s.writers[w].dest, x);
      assert LeftAt(dests, s, w, x);
    } else {
      forall x | LeftAt(dests, s, w, x)
        ensures false
      {
        ReturningLeavesNone(start, dests, s, x);
      }
    }
  }

  /** Such a run: the write fails, and then the removal. */
  function LeftBehind(d: Name): State {
    State(map[TempName(d, 7, 0) := Regular(0)], [File([], false, Some(0))], [Process(7, 1, true)],
          [Writer(0, d, [1], Left(TempName(d, 7, 0), 0))])
  }

  lemma ARefusedRemovalIsReached(dests: set<Name>, d: Name)
    requires Apart(dests) && d in dests
    ensures Reached(dests, LeftBehind(d)) && LeftAt(dests, LeftBehind(d), 0, TempName(d, 7, 0))
  {
    hide Reached, TempName;
    var s0 := Empty();
    EmptyIsReached(dests);
    OneMore(dests, s0, Spawn(7));
    var s1 := After(s0, Spawn(7));
    OneMore(dests, s1, Begin(0, d, [1]));
    var s2 := After(s1, Begin(0, d, [1]));
    OneMore(dests, s2, Take(0));
    var s3 := After(s2, Take(0));
    OneMore(dests, s3, Create(0, Made));
    var s4 := After(s3, Create(0, Made));
    OneMore(dests, s4, WriteFails(0));
    var s5 := After(s4, WriteFails(0));
    OneMore(dests, s5, Remove(0, false));
    assert After(s5, Remove(0, false)) == LeftBehind(d);
  }
}
