/** What write_atomic's result says: success is a rename that was made, of the
    whole bytes, and an error that left nothing is a refused open or a removal. */
module AtomicWriteAnswers {
  import opened AtomicWrite
  import opened AtomicWriteRuns
  import opened Decimals

  predicate HasReturned(s: State, w: nat, ok: bool) { w < |s.writers| && s.writers[w].pc == Returned(ok) }

  /** The steps with which writer w's call ends in that result. */
  predicate Returns(e: Event, w: nat, ok: bool) {
    if ok then e == Rename(w, true) else e == Create(w, Refused) || e == Remove(w, true)
  }

  predicate ReturnsBefore(events: seq<Event>, k: nat, w: nat, ok: bool)
    requires k <= |events|
  {
    exists j :: 0 <= j < k && Returns(events[j], w, ok)
  }

  lemma ReturnedAfter(s: State, e: Event, w: nat, ok: bool)
    requires Enabled(s, e)
    ensures HasReturned(After(s, e), w, ok) <==> HasReturned(s, w, ok) || Returns(e, w, ok)
  {
    hide Put, TempName;
  }

  lemma NoneReturnedYet(s: State, w: nat, ok: bool)
    requires Starts(s)
    ensures !HasReturned(s, w, ok)
  {
  }

  /** A call has returned with a result just when it took a step that returns
      it, in every state of every run. */
  lemma {:induction false} TheResultSaysWhatWasDone(dests: set<Name>, trace: seq<State>, events: seq<Event>, k: nat,
                                                    w: nat, ok: bool)
    requires Run(dests, trace, events) && k < |trace|
    ensures HasReturned(trace[k], w, ok) <==> ReturnsBefore(events, k, w, ok)
  {
    hide After, Enabled, HasReturned, Returns;
    if k == 0 {
      NoneReturnedYet(trace[0], w, ok);
    } else {
      TheResultSaysWhatWasDone(dests, trace, events, k - 1, w, ok);
      ReturnedAfter(trace[k - 1], events[k - 1], w, ok);
      assert ReturnsBefore(events, k - 1, w, ok) ==> ReturnsBefore(events, k, w, ok);
    }
  }

  /** The destination stands for w's own file, all its bytes on the disk. */
  predicate Stored(s: State, w: nat) {
    && w < |s.writers| && s.writers[w].dest in s.dir && s.dir[s.writers[w].dest].Regular?
    && s.dir[s.writers[w].dest].ino < |s.files|
    && s.files[s.dir[s.writers[w].dest].ino] == File(s.writers[w].bytes, true, Some(w))
  }

  /** A call that returned well has put its bytes there: they stood at its
      destination, whole and on the disk, after its last step. */
  lemma ReturningWellStores(dests: set<Name>, trace: seq<State>, events: seq<Event>, k: nat, w: nat) returns (j: nat)
    requires Apart(dests) && Run(dests, trace, events) && k < |trace| && HasReturned(trace[k], w, true)
    ensures j < k && events[j] == Rename(w, true) && Stored(trace[j + 1], w)
  {
    hide After, Apart, Inv, HasReturned, Stored, Starts;
    TheResultSaysWhatWasDone(dests, trace, events, k, w, true);
    j :| 0 <= j < k && Returns(events[j], w, true);
    EveryRunKeepsInv(dests, trace, events, j);
    RenamingStores(trace[0], dests, trace[j], events[j]);
  }

  lemma RenamingStores(start: State, dests: set<Name>, s: State, e: Event)
    requires Inv(start, dests, s) && Allowed(dests, s, e) && e.Rename? && e.ok
    ensures Stored(After(s, e), e.w)
  {
    hide NamesOk, FilesOk;
    assert HeldOk(start, s, e.w) && BytesOk(s, e.w);
  }

  /** What may come in any state: each call of a writer may fail or not, a
      process may be killed and the machine may lose power. */
  lemma WhatMayCome(s: State, w: nat, count: nat, garbage: seq<Bytes>, p: nat)
    requires HasProcess(s, w)
    ensures var pc, tmp := s.writers[w].pc, NameOf(s, w, if s.writers[w].pc.Took? then s.writers[w].pc.n else 0);
      && (pc.Took? ==> Enabled(s, Create(w, Refused)) && Enabled(s, Create(w, if tmp in s.dir then Exists else Made)))
      && (pc.Writing? ==> Enabled(s, WriteFails(w)))
      && (pc.Writing? && pc.ino < |s.files| ==>
            && (0 < count <= |s.writers[w].bytes| - pc.at ==> Enabled(s, Write(w, count)))
            && (pc.at == |s.writers[w].bytes| ==> Enabled(s, Sync(w, true)) && Enabled(s, Sync(w, false))))
      && (pc.Synced? ==> Enabled(s, Rename(w, false)))
      && (pc.Synced? && pc.tmp in s.dir && (s.writers[w].dest in s.dir ==> !s.dir[s.writers[w].dest].Directory?) ==>
            Enabled(s, Rename(w, true)))
      && (pc.Failing? ==> Enabled(s, Remove(w, false)) && (pc.tmp in s.dir ==> Enabled(s, Remove(w, true))))
    ensures p < |s.procs| ==> Enabled(s, Kill(p))
    ensures |garbage| == |s.files| ==> Enabled(s, PowerLoss(garbage))
  {
    hide TempName;
  }

  /** A power loss leaves the names, takes the bytes that are not on the disk
      and stops everyone. */
  lemma WhatAPowerLossTakes(s: State, garbage: seq<Bytes>)
    requires |garbage| == |s.files|
    ensures var r := After(s, PowerLoss(garbage));
      && r.dir == s.dir && |r.files| == |s.files| && |r.writers| == |s.writers| && |r.procs| == |s.procs|
      && (forall i :: 0 <= i < |s.files| ==>
            r.files[i] == if s.files[i].synced then s.files[i] else s.files[i].(bytes := garbage[i]))
      && (forall w :: 0 <= w < |s.writers| ==> !Running(r.writers[w].pc) && r.writers[w].dest == s.writers[w].dest)
      && forall p :: 0 <= p < |s.procs| ==> !r.procs[p].alive
  {
  }

  /** The name, spelt out. */
  lemma ATemporaryName()
    ensures TempName("model.bin", 7, 12) == "model.bin.partial.7.12"
  {
    assert Decimal(7) == "7" && Decimal(12) == Decimal(1) + "2";
  }
}
