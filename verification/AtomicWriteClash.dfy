/** When a name to be written is itself another's temporary name, and only
    then, a destination can end with bytes no writer of it was given. */
module AtomicWriteClash {
  import opened AtomicWrite
  import opened AtomicWriteRuns

  /** n writers of d in process 0, each with its number. */
  function Waiting(d: Name, n: nat): seq<Writer> {
    seq(n, k requires 0 <= k < n => Writer(0, d, [1], Took(k)))
  }

  function Counted(d: Name, p: nat, n: nat): State {
    State(map[], [], [Process(p, n, true), Process(p + 1, 0, true)], Waiting(d, n))
  }

  /** The last of n + 1 writers of d has made its file, and a writer in the
      other process is to write that very name. */
  function Met(d: Name, p: nat, n: nat): State {
    var t := TempName(d, p, n);
    State(map[t := Regular(0)], [File([], false, Some(n))], [Process(p, n + 1, true), Process(p + 1, 0, true)],
          Waiting(d, n) + [Writer(0, d, [1], Writing(t, 0, 0)), Writer(1, t, [2], Ready)])
  }

  /** The writer of the name has returned, its file where the other's was. */
  function Replaced(d: Name, p: nat, n: nat): State {
    var t := TempName(d, p, n);
    State(map[t := Regular(1)], [File([], false, Some(n)), File([2], true, Some(n + 1))],
          [Process(p, n + 1, true), Process(p + 1, 1, true)],
          Waiting(d, n) + [Writer(0, d, [1], Writing(t, 0, 0)), Writer(1, t, [2], Returned(true))])
  }

  /** And the writer of d has renamed that file to d. */
  function Broken(d: Name, p: nat, n: nat): State {
    var t := TempName(d, p, n);
    State(map[d := Regular(1)], [File([1], true, Some(n)), File([2], true, Some(n + 1))],
          [Process(p, n + 1, true), Process(p + 1, 1, true)],
          Waiting(d, n) + [Writer(0, d, [1], Returned(true)), Writer(1, t, [2], Returned(true))])
  }

  lemma LongerName(d: Name, p: nat, n: nat)
    ensures |TempName(d, p, n)| > |d|
  {
  }

  lemma {:induction false} CountedIsReached(dests: set<Name>, d: Name, p: nat, n: nat)
    requires d in dests
    ensures Reached(dests, Counted(d, p, n))
  {
    hide Reached, TempName;
    if n == 0 {
      EmptyIsReached(dests);
      OneMore(dests, Empty(), Spawn(p));
      var s := After(Empty(), Spawn(p));
      OneMore(dests, s, Spawn(p + 1));
      assert After(s, Spawn(p + 1)) == Counted(d, p, 0);
    } else {
      CountedIsReached(dests, d, p, n - 1);
      var s, e := Counted(d, p, n - 1), Begin(0, d, [1]);
      OneMore(dests, s, e);
      OneMore(dests, After(s, e), Take(n - 1));
      assert After(After(s, e), Take(n - 1)).writers == Waiting(d, n);
      assert After(After(s, e), Take(n - 1)) == Counted(d, p, n);
    }
  }

  lemma Meets(dests: set<Name>, d: Name, p: nat, n: nat)
    requires d in dests && TempName(d, p, n) in dests
    ensures Reached(dests, Met(d, p, n))
  {
    hide Reached, TempName;
    CountedIsReached(dests, d, p, n + 1);
    var t, s := TempName(d, p, n), Counted(d, p, n + 1);
    assert s.writers[n] == Writer(0, d, [1], Took(n));
    OneMore(dests, s, Create(n, Made));
    var s1 := After(s, Create(n, Made));
    assert s1.writers == Waiting(d, n) + [Writer(0, d, [1], Writing(t, 0, 0))];
    OneMore(dests, s1, Begin(1, t, [2]));
    assert After(s1, Begin(1, t, [2])).writers == Met(d, p, n).writers;
    assert After(s1, Begin(1, t, [2])) == Met(d, p, n);
  }

  lemma WrittenFromNothing(b: bv8)
    ensures Put([], 0, [b][0..1]) == [b]
  {
    assert [b][0..1] == [b];
    assert Put([], 0, [b]) == [b];
  }

  /** The writer of the name has made its own file. */
  function Second(d: Name, p: nat, n: nat): State {
    var t := TempName(d, p, n);
    var t1 := TempName(t, p + 1, 0);
    State(map[t := Regular(0), t1 := Regular(1)], [File([], false, Some(n)), File([], false, Some(n + 1))],
          [Process(p, n + 1, true), Process(p + 1, 1, true)],
          Waiting(d, n) + [Writer(0, d, [1], Writing(t, 0, 0)), Writer(1, t, [2], Writing(t1, 1, 0))])
  }

  lemma MakesASecond(dests: set<Name>, d: Name, p: nat, n: nat)
    requires Reached(dests, Met(d, p, n))
    ensures Reached(dests, Second(d, p, n))
  {
    var t, s, w := TempName(d, p, n), Met(d, p, n), n + 1;
    LongerName(t, p + 1, 0);
    hide Reached, TempName;
    assert s.writers[w] == Writer(1, t, [2], Ready);
    OneMore(dests, s, Take(w));
    var s1 := After(s, Take(w));
    OneMore(dests, s1, Create(w, Made));
    var r := After(s1, Create(w, Made));
    assert r.dir == Second(d, p, n).dir && r.files == Second(d, p, n).files;
    assert r.writers == Second(d, p, n).writers && r.procs == Second(d, p, n).procs;
  }

  lemma Replaces(dests: set<Name>, d: Name, p: nat, n: nat)
    requires Reached(dests, Second(d, p, n))
    ensures Reached(dests, Replaced(d, p, n))
  {
    var t, s2, w := TempName(d, p, n), Second(d, p, n), n + 1;
    var t1 := TempName(t, p + 1, 0);
    LongerName(t, p + 1, 0);
    hide Reached, TempName;
    assert s2.writers[w] == Writer(1, t, [2], Writing(t1, 1, 0));
    WrittenFromNothing(2);
    OneMore(dests, s2, Write(w, 1));
    var s3 := After(s2, Write(w, 1));
    OneMore(dests, s3, Sync(w, true));
    var s4 := After(s3, Sync(w, true));
    OneMore(dests, s4, Rename(w, true));
    var r := After(s4, Rename(w, true));
    assert r.dir == Replaced(d, p, n).dir && r.files == Replaced(d, p, n).files;
    assert r.writers == Replaced(d, p, n).writers && r.procs == Replaced(d, p, n).procs;
  }

  lemma Breaks(dests: set<Name>, d: Name, p: nat, n: nat)
    requires Reached(dests, Replaced(d, p, n))
    ensures Reached(dests, Broken(d, p, n))
  {
    var t, s := TempName(d, p, n), Replaced(d, p, n);
    LongerName(d, p, n);
    hide Reached, TempName;
    assert s.writers[n] == Writer(0, d, [1], Writing(t, 0, 0));
    WrittenFromNothing(1);
    OneMore(dests, s, Write(n, 1));
    var s1 := After(s, Write(n, 1));
    OneMore(dests, s1, Sync(n, true));
    var s2 := After(s1, Sync(n, true));
    OneMore(dests, s2, Rename(n, true));
    var r := After(s2, Rename(n, true));
    assert r.dir == Broken(d, p, n).dir && r.files == Broken(d, p, n).files;
    assert r.writers == Broken(d, p, n).writers && r.procs == Broken(d, p, n).procs;
  }

  /** x stands for a file whose bytes no writer of x was given. */
  predicate Foreign(s: State, x: Name) {
    && x in s.dir && s.dir[x].Regular? && s.dir[x].ino < |s.files|
    && forall w :: 0 <= w < |s.writers| && s.writers[w].dest == x ==> s.files[s.dir[x].ino].bytes != s.writers[w].bytes
  }

  /** Whenever a name and a temporary name of it are both written, some run
      comes to where a writer of each has returned and the first stands for
      the bytes of the other. */
  lemma ATemporaryNameAsDestinationBreaksIt(dests: set<Name>, d: Name, p: nat, n: nat)
    requires d in dests && TempName(d, p, n) in dests
    ensures Reached(dests, Broken(d, p, n)) && Foreign(Broken(d, p, n), d)
  {
    hide Reached, TempName, Met, Second, Replaced;
    Meets(dests, d, p, n);
    MakesASecond(dests, d, p, n);
    Replaces(dests, d, p, n);
    Breaks(dests, d, p, n);
    LongerName(d, p, n);
  }

  /** In every state of every run each name written is as it was or written
      whole, just when none of them is a temporary name of another. */
  lemma DestinationsAreOldOrWholeIffApart(dests: set<Name>)
    ensures Apart(dests) <==> forall trace, events, k: nat, d ::
      Run(dests, trace, events) && k < |trace| && d in dests ==> OldOrWhole(trace[0], trace[k], d)
  {
    hide Run, TempName, OldOrWhole, Broken, Reached;
    if Apart(dests) {
      forall trace, events, k: nat, d | Run(dests, trace, events) && k < |trace| && d in dests
        ensures OldOrWhole(trace[0], trace[k], d)
      {
        DestinationIsOldOrWhole(dests, trace, events, k, d);
      }
    } else {
      var t, d, p, n :| t in dests && d in dests && t == TempName(d, p, n);
      ATemporaryNameAsDestinationBreaksIt(dests, d, p, n);
      var trace, events := RunTo(dests, Broken(d, p, n));
      ForeignIsNeither(Broken(d, p, n), d);
      assert !OldOrWhole(trace[0], trace[|events|], d);
    }
  }

  lemma RunTo(dests: set<Name>, s: State) returns (trace: seq<State>, events: seq<Event>)
    requires Reached(dests, s)
    ensures Run(dests, trace, events) && |events| < |trace| && trace[0] == Empty() && trace[|events|] == s
  {
    trace, events :| Leads(dests, trace, events, s);
  }

  lemma ForeignIsNeither(s: State, d: Name)
    requires Foreign(s, d)
    ensures !OldOrWhole(Empty(), s, d)
  {
  }

  /** Two writers of different names suffice: "a" ends with [2], which no
      writer of "a" was given. */
  lemma TwoNamesSuffice()
    ensures Starts(Empty()) && !Apart({"a", TempName("a", 7, 0)})
    ensures Reached({"a", TempName("a", 7, 0)}, Broken("a", 7, 0))
    ensures Broken("a", 7, 0).dir["a"] == Regular(1) && Broken("a", 7, 0).files[1].bytes == [2]
    ensures forall w :: 0 <= w < |Broken("a", 7, 0).writers| && Broken("a", 7, 0).writers[w].dest == "a" ==>
      Broken("a", 7, 0).writers[w].bytes == [1]
  {
    LongerName("a", 7, 0);
    ATemporaryNameAsDestinationBreaksIt({"a", TempName("a", 7, 0)}, "a", 7, 0);
    hide Reached, TempName;
  }
}
