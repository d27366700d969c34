/** What every run of writers keeps: a name they write holds what it held or
    one writer's whole bytes, and each touches only the file it made. */
module AtomicWriteRuns {
  import opened AtomicWrite
  import opened Decimals

  // ---- Names ----

  lemma EndsApart(a: string, s: string, b: string, t: string)
    requires forall k :: 0 <= k < |s| ==> IsDigit(s[k])
    requires forall k :: 0 <= k < |t| ==> IsDigit(t[k])
    requires a + "." + s == b + "." + t
    ensures a == b && s == t
  {
    var x := a + "." + s;
    assert x[|a|] == '.' && x[|b|] == '.';
    assert forall k :: |a| < k < |x| ==> x[k] == s[k - |a| - 1];
    assert forall k :: |b| < k < |x| ==> x[k] == t[k - |b| - 1];
    assert |a| == |b|;
    assert x[..|a|] == a && x[..|a|] == b;
    assert x[|a| + 1..] == s && x[|a| + 1..] == t;
  }

  /** A write's name tells the file, the process and the number. */
  lemma TempNamesAreApart(d: Name, p: nat, n: nat, d': Name, p': nat, n': nat)
    requires TempName(d, p, n) == TempName(d', p', n')
    ensures d == d' && p == p' && n == n'
  {
    hide Decimal, Value;
    DecimalReads(p);
    DecimalReads(n);
    DecimalReads(p');
    DecimalReads(n');
    var a, b := d + ".partial." + Decimal(p), d' + ".partial." + Decimal(p');
    EndsApart(a, Decimal(n), b, Decimal(n'));
    assert a == d + ".partial" + "." + Decimal(p) && b == d' + ".partial" + "." + Decimal(p');
    EndsApart(d + ".partial", Decimal(p), d' + ".partial", Decimal(p'));
    assert (d + ".partial")[..|d|] == d && (d' + ".partial")[..|d'|] == d';
  }

  /** No name written is a temporary name of another. */
  ghost predicate Apart(dests: set<Name>) {
    forall d, d', p, n :: d in dests && d' in dests ==> d != TempName(d', p, n)
  }

  // ---- Runs ----

  /** The directory before any writer: what is there stays as it is on the disk. */
  ghost predicate Starts(s: State) {
    && s.procs == [] && s.writers == []
    && (forall i :: 0 <= i < |s.files| ==> s.files[i].synced && s.files[i].maker == None)
    && (forall x :: x in s.dir && !s.dir[x].Directory? ==> s.dir[x].ino < |s.files|)
  }

  predicate Allowed(dests: set<Name>, s: State, e: Event) { Enabled(s, e) && (e.Begin? ==> e.dest in dests) }

  ghost predicate Run(dests: set<Name>, trace: seq<State>, events: seq<Event>) {
    && |trace| == |events| + 1 && Starts(trace[0])
    && forall k :: 0 <= k < |events| ==>
      Allowed(dests, trace[k], events[k]) && trace[k + 1] == After(trace[k], events[k])
  }

  /** The directory with nothing in it. */
  function Empty(): State { State(map[], [], [], []) }

  ghost predicate Leads(dests: set<Name>, trace: seq<State>, events: seq<Event>, s: State) {
    Run(dests, trace, events) && trace[0] == Empty() && trace[|events|] == s
  }

  /** Some run in an empty directory comes to s. */
  ghost predicate Reached(dests: set<Name>, s: State) { exists trace, events :: Leads(dests, trace, events, s) }

  lemma EmptyIsReached(dests: set<Name>)
    ensures Reached(dests, Empty())
  {
    assert Leads(dests, [Empty()], [], Empty());
  }

  lemma OneMore(dests: set<Name>, s: State, e: Event)
    requires Reached(dests, s) && Allowed(dests, s, e)
    ensures Reached(dests, After(s, e))
  {
    hide After, Enabled, Starts;
    var trace, events :| Leads(dests, trace, events, s);
    var trace', events' := trace + [After(s, e)], events + [e];
    forall k | 0 <= k < |events'|
      ensures Allowed(dests, trace'[k], events'[k]) && trace'[k + 1] == After(trace'[k], events'[k])
    {
      assert trace'[k] == trace[k];
      assert k < |events| ==> events'[k] == events[k] && trace'[k + 1] == trace[k + 1];
    }
    assert Leads(dests, trace', events', After(s, e));
  }

  /** The temporary file a writer has made and not seen gone. */
  function Held(pc: Pc): Option<(Name, nat)> {
    match pc
    case Writing(tmp, ino, _) => Some((tmp, ino))
    case Synced(tmp, ino) => Some((tmp, ino))
    case Failing(tmp, ino) => Some((tmp, ino))
    case Left(tmp, ino) => Some((tmp, ino))
    case Killed(was) => Held(was)
    case _ => None
  }

  /** Old files are as they were; the others each have a writer. */
  predicate FilesOk(start: State, s: State) {
    && |start.files| <= |s.files|
    && (forall i :: 0 <= i < |start.files| ==> s.files[i] == start.files[i])
    && (forall i :: |start.files| <= i < |s.files| ==>
          s.files[i].maker.Some? && s.files[i].maker.value < |s.writers|)
  }

  predicate WritersOk(dests: set<Name>, s: State) {
    && (forall w :: 0 <= w < |s.writers| ==> s.writers[w].proc < |s.procs| && s.writers[w].dest in dests)
  }

  ghost predicate IsTemp(dest: Name, x: Name) { exists p, n :: x == TempName(dest, p, n) }

  /** A held temporary file is there under its name, and is the writer's. */
  ghost predicate HeldOk(start: State, s: State, w: nat)
    requires w < |s.writers|
  {
    Held(s.writers[w].pc).Some? ==>
      var (tmp, ino) := Held(s.writers[w].pc).value;
      && |start.files| <= ino < |s.files| && s.files[ino].maker == Some(w)
      && tmp in s.dir && s.dir[tmp] == Regular(ino)
      && tmp !in start.dir && IsTemp(s.writers[w].dest, tmp)
  }

  /** What a writer has written so far is what it was given so far. */
  predicate BytesOk(s: State, w: nat)
    requires w < |s.writers|
  {
    match s.writers[w].pc
    case Writing(_, ino, at) =>
      at <= |s.writers[w].bytes| && ino < |s.files| && s.files[ino].bytes == s.writers[w].bytes[..at]
    case Synced(_, ino) =>
      ino < |s.files| && s.files[ino].bytes == s.writers[w].bytes && s.files[ino].synced
    case _ => true
  }

  /** Name x holds the whole bytes of a writer that returned well. */
  ghost predicate Written(s: State, x: Name) {
    x in s.dir && s.dir[x].Regular? && s.dir[x].ino < |s.files| && Whole(s, s.files[s.dir[x].ino], x)
  }

  predicate Whole(s: State, f: File, x: Name) {
    && f.synced && f.maker.Some? && f.maker.value < |s.writers|
    && var w := s.writers[f.maker.value];
    w.dest == x && w.pc == Returned(true) && f.bytes == w.bytes
  }

  predicate AsBefore(start: State, s: State, x: Name) {
    (x in s.dir <==> x in start.dir) && (x in s.dir ==> s.dir[x] == start.dir[x])
  }

  predicate HoldsName(s: State, w: nat, x: Name)
    requires w < |s.writers|
  {
    Held(s.writers[w].pc).Some? && Held(s.writers[w].pc).value.0 == x
  }

  ghost predicate SomeoneHolds(s: State, x: Name) { exists w :: 0 <= w < |s.writers| && HoldsName(s, w, x) }

  /** Every name is as it was, or written whole, or some writer's own. */
  ghost predicate NamesOk(start: State, dests: set<Name>, s: State) {
    forall x :: AsBefore(start, s, x) || (x in dests && Written(s, x)) || (x !in dests && SomeoneHolds(s, x))
  }

  ghost predicate Inv(start: State, dests: set<Name>, s: State) {
    && FilesOk(start, s) && WritersOk(dests, s)
    && (forall w :: 0 <= w < |s.writers| ==> HeldOk(start, s, w) && BytesOk(s, w))
    && NamesOk(start, dests, s)
  }

  lemma InvStarts(dests: set<Name>, s: State)
    requires Starts(s)
    ensures Inv(s, dests, s)
  {
  }

  // ---- Each step keeps it ----

  /** The writer whose step it is. */
  function Actor(e: Event): Option<nat> {
    match e
    case Take(w) => Some(w)
    case Create(w, _) => Some(w)
    case Write(w, _) => Some(w)
    case WriteFails(w) => Some(w)
    case Sync(w, _) => Some(w)
    case Rename(w, _) => Some(w)
    case Remove(w, _) => Some(w)
    case _ => None
  }

  predicate Frees(e: Event) { (e.Rename? && e.ok) || (e.Remove? && e.ok) }

  predicate Creates(e: Event) { e.Create? && e.how.Made? }

  /** What a step makes of a writer. */
  lemma WriterAfter(s: State, e: Event, u: nat)
    requires Enabled(s, e) && u < |After(s, e).writers|
    ensures |s.writers| <= |After(s, e).writers| <= |s.writers| + 1
    ensures var r := After(s, e).writers[u];
      if u >= |s.writers| then e.Begin? && r == Writer(e.p, e.dest, e.bytes, Ready)
      else
        var was := s.writers[u];
        && r.(pc := was.pc) == was
        && (Actor(e) != Some(u) ==> r.pc == was.pc || (Running(was.pc) && r.pc == Killed(was.pc)))
        && Held(r.pc) == (if Creates(e) && e.w == u then Some((NameOf(s, u, was.pc.n), |s.files|))
                          else if Frees(e) && e.w == u then None else Held(was.pc))
  {
    hide Put;
  }

  /** What a step makes of the files. */
  lemma FilesAfter(s: State, e: Event, i: nat)
    requires Enabled(s, e) && i < |After(s, e).files|
    ensures |After(s, e).files| == |s.files| + (if Creates(e) then 1 else 0)
    ensures i >= |s.files| ==> After(s, e).files[i] == File([], false, Some(e.w))
    ensures i < |s.files| ==> After(s, e).files[i].maker == s.files[i].maker
    ensures i < |s.files| && After(s, e).files[i] != s.files[i] ==>
      || (e.PowerLoss? && !s.files[i].synced)
      || ((e.Write? || e.Sync?) && s.writers[e.w].pc.ino == i)
  {
    hide Put;
  }

  lemma FilesKept(start: State, dests: set<Name>, s: State, e: Event)
    requires Starts(start) && Inv(start, dests, s) && Allowed(dests, s, e)
    ensures FilesOk(start, After(s, e))
  {
    hide After, Enabled, NamesOk, WritersOk, BytesOk;
    var r := After(s, e);
    CountsAfter(s, e);
    forall i | 0 <= i < |r.files|
      ensures i < |start.files| ==> r.files[i] == start.files[i]
      ensures i >= |start.files| ==> r.files[i].maker.Some? && r.files[i].maker.value < |r.writers|
    {
      FilesAfter(s, e, i);
      if e.Write? || e.Sync? {
        ActsOnHeld(start, dests, s, e);
      }
    }
  }

  lemma CountsAfter(s: State, e: Event)
    requires Enabled(s, e)
    ensures |s.writers| <= |After(s, e).writers| && |s.procs| <= |After(s, e).procs|
    ensures |After(s, e).files| == |s.files| + (if Creates(e) then 1 else 0)
    ensures Actor(e).Some? ==> Actor(e).value < |s.writers|
  {
  }

  /** A step on a file is a step on the file its writer holds. */
  lemma ActsOnHeld(start: State, dests: set<Name>, s: State, e: Event)
    requires Inv(start, dests, s) && Enabled(s, e) && (e.Write? || e.Sync? || e.Rename? || e.Remove?)
    ensures e.w < |s.writers| && Held(s.writers[e.w].pc).Some?
    ensures s.writers[e.w].pc.Writing? || s.writers[e.w].pc.Synced? || s.writers[e.w].pc.Failing?
    ensures Held(s.writers[e.w].pc).value == (s.writers[e.w].pc.tmp, s.writers[e.w].pc.ino)
    ensures |start.files| <= s.writers[e.w].pc.ino < |s.files| && s.files[s.writers[e.w].pc.ino].maker == Some(e.w)
  {
    assert HeldOk(start, s, e.w);
  }

  lemma WritersKept(start: State, dests: set<Name>, s: State, e: Event)
    requires Inv(start, dests, s) && Allowed(dests, s, e)
    ensures WritersOk(dests, After(s, e))
  {
    hide NamesOk, FilesOk, BytesOk, HeldOk, After;
    CountsAfter(s, e);
    forall w | 0 <= w < |After(s, e).writers|
      ensures After(s, e).writers[w].proc < |After(s, e).procs| && After(s, e).writers[w].dest in dests
    {
      WriterAfter(s, e, w);
    }
  }

  /** The directory after a step. */
  lemma DirAfter(s: State, e: Event, x: Name)
    requires Enabled(s, e)
    ensures var r := After(s, e);
      if Creates(e) && x == NameOf(s, e.w, s.writers[e.w].pc.n) then
        x !in s.dir && x in r.dir && r.dir[x] == Regular(|s.files|)
      else if e.Rename? && e.ok && x == s.writers[e.w].dest then x in r.dir && r.dir[x] == s.dir[s.writers[e.w].pc.tmp]
      else if Frees(e) && x == s.writers[e.w].pc.tmp then x !in r.dir
      else (x in r.dir <==> x in s.dir) && (x in s.dir ==> r.dir[x] == s.dir[x])
  {
  }

  /** Two writers hold different files under different names. */
  lemma HoldersApart(start: State, s: State, w: nat, u: nat)
    requires w < |s.writers| && u < |s.writers| && HeldOk(start, s, w) && HeldOk(start, s, u)
    requires Held(s.writers[w].pc).Some? && Held(s.writers[u].pc).Some?
    requires Held(s.writers[w].pc).value.0 == Held(s.writers[u].pc).value.0
          || Held(s.writers[w].pc).value.1 == Held(s.writers[u].pc).value.1
    ensures w == u
  {
  }

  lemma TempIsNoDest(dests: set<Name>, dest: Name, x: Name)
    requires Apart(dests) && dest in dests && IsTemp(dest, x)
    ensures x !in dests
  {
  }

  lemma HeldKept(start: State, dests: set<Name>, s: State, e: Event, u: nat)
    requires Apart(dests) && Starts(start) && Inv(start, dests, s) && Allowed(dests, s, e) && u < |After(s, e).writers|
    ensures HeldOk(start, After(s, e), u)
  {
    hide After, Enabled, BytesOk, Apart, Written, AsBefore, SomeoneHolds, IsTemp, NameOf;
    var r := After(s, e);
    WriterAfter(s, e, u);
    if Held(r.writers[u].pc).Some? {
      var (tmp, ino) := Held(r.writers[u].pc).value;
      if Creates(e) && e.w == u {
        CountsAfter(s, e);
        FilesAfter(s, e, ino);
        DirAfter(s, e, tmp);
        if tmp in start.dir {
          OldNamesStay(start, dests, s, tmp);
        }
        NewNameIsFree(s, e, tmp);
        NewNameIsTemp(s, u);
      } else {
        assert HeldOk(start, s, u);
        CountsAfter(s, e);
        FilesAfter(s, e, ino);
        DirAfter(s, e, tmp);
        if Frees(e) {
          ActsOnHeld(start, dests, s, e);
          if tmp == s.writers[e.w].pc.tmp {
            HoldersApart(start, s, u, e.w);
          }
          TempIsNoDest(dests, s.writers[u].dest, tmp);
        }
        if Creates(e) {
          NewNameIsFree(s, e, tmp);
        }
      }
    }
  }

  lemma NewNameIsFree(s: State, e: Event, x: Name)
    requires Enabled(s, e) && Creates(e)
    ensures HasProcess(s, e.w) && s.writers[e.w].pc.Took?
    ensures x in s.dir ==> x != NameOf(s, e.w, s.writers[e.w].pc.n)
  {
  }

  lemma NewNameIsTemp(s: State, w: nat)
    requires HasProcess(s, w) && s.writers[w].pc.Took?
    ensures IsTemp(s.writers[w].dest, NameOf(s, w, s.writers[w].pc.n))
  {
  }

  /** A name that was there is there. */
  lemma OldNamesStay(start: State, dests: set<Name>, s: State, x: Name)
    requires Inv(start, dests, s) && x in start.dir
    ensures x in s.dir
  {
    if SomeoneHolds(s, x) {
      var w :| 0 <= w < |s.writers| && HoldsName(s, w, x);
      assert HeldOk(start, s, w);
    }
  }

  lemma BytesKept(start: State, dests: set<Name>, s: State, e: Event, u: nat)
    requires Inv(start, dests, s) && Allowed(dests, s, e) && u < |After(s, e).writers|
    ensures BytesOk(After(s, e), u)
  {
    hide NamesOk, FilesOk;
    WriterAfter(s, e, u);
    var r := After(s, e);
    if u < |s.writers| && (r.writers[u].pc.Writing? || r.writers[u].pc.Synced?) {
      assert HeldOk(start, s, u) && BytesOk(s, u);
      if Actor(e) == Some(u) {
        OwnBytes(start, s, e);
      } else {
        OthersBytes(start, dests, s, e, u);
      }
    }
  }

  lemma OwnBytes(start: State, s: State, e: Event)
    requires Enabled(s, e) && Actor(e).Some? && Actor(e).value < |s.writers|
    requires HeldOk(start, s, Actor(e).value) && BytesOk(s, Actor(e).value)
    ensures BytesOk(After(s, e), Actor(e).value)
  {
    if e.Write? {
      var w := s.writers[e.w];
      assert w.bytes[..w.pc.at + e.count] == w.bytes[..w.pc.at] + w.bytes[w.pc.at..w.pc.at + e.count];
    }
    if e.Sync? {
      assert s.writers[e.w].bytes[..|s.writers[e.w].bytes|] == s.writers[e.w].bytes;
    }
  }

  lemma OthersBytes(start: State, dests: set<Name>, s: State, e: Event, u: nat)
    requires Inv(start, dests, s) && Enabled(s, e) && u < |s.writers| && Actor(e) != Some(u)
    ensures BytesOk(After(s, e), u)
  {
    hide NamesOk, FilesOk, After, Enabled, WritersOk;
    assert HeldOk(start, s, u) && BytesOk(s, u);
    CountsAfter(s, e);
    WriterAfter(s, e, u);
    var r := After(s, e);
    if r.writers[u].pc.Writing? || r.writers[u].pc.Synced? {
      FilesAfter(s, e, r.writers[u].pc.ino);
      if e.Write? || e.Sync? {
        ActsOnHeld(start, dests, s, e);
      }
      if e.PowerLoss? {
        PowerStopsAll(s, e, u);
      }
    }
  }

  lemma PowerStopsAll(s: State, e: Event, u: nat)
    requires Enabled(s, e) && e.PowerLoss? && u < |s.writers|
    ensures !Running(After(s, e).writers[u].pc)
  {
  }

  /** A file written whole stays so. */
  lemma WrittenStays(start: State, dests: set<Name>, s: State, e: Event, x: Name)
    requires Inv(start, dests, s) && Allowed(dests, s, e) && Written(s, x)
    requires x in After(s, e).dir && After(s, e).dir[x] == s.dir[x]
    ensures Written(After(s, e), x)
  {
    hide After, Enabled, NamesOk, WritersOk, BytesOk, FilesOk;
    var i := s.dir[x].ino;
    var u := s.files[i].maker.value;
    CountsAfter(s, e);
    FilesAfter(s, e, i);
    WriterAfter(s, e, u);
    if e.Write? || e.Sync? {
      ActsOnHeld(start, dests, s, e);
    }
    ReturnedIsStill(s, e, u);
  }

  lemma ReturnedIsStill(s: State, e: Event, u: nat)
    requires Enabled(s, e) && u < |s.writers| && s.writers[u].pc.Returned?
    ensures Actor(e) != Some(u)
  {
  }

  lemma HolderStays(s: State, e: Event, x: Name)
    requires Enabled(s, e) && SomeoneHolds(s, x)
    requires Frees(e) && e.w < |s.writers| ==> !HoldsName(s, e.w, x)
    ensures SomeoneHolds(After(s, e), x)
  {
    hide After, Enabled, NameOf;
    var u :| 0 <= u < |s.writers| && HoldsName(s, u, x);
    CountsAfter(s, e);
    WriterAfter(s, e, u);
    if Creates(e) && e.w == u {
      TookHoldsNothing(s, e);
    }
    assert HoldsName(After(s, e), u, x);
  }

  lemma TookHoldsNothing(s: State, e: Event)
    requires Enabled(s, e) && Creates(e)
    ensures e.w < |s.writers| && Held(s.writers[e.w].pc) == None
  {
  }

  lemma CreatedIsHeld(start: State, dests: set<Name>, s: State, e: Event)
    requires Apart(dests) && Inv(start, dests, s) && Allowed(dests, s, e) && Creates(e)
    ensures HasProcess(s, e.w) && s.writers[e.w].pc.Took?
    ensures var x := NameOf(s, e.w, s.writers[e.w].pc.n); x !in dests && SomeoneHolds(After(s, e), x)
  {
    hide After, NamesOk, BytesOk, FilesOk, IsTemp, Apart;
    CountsAfter(s, e);
    WriterAfter(s, e, e.w);
    var x := NameOf(s, e.w, s.writers[e.w].pc.n);
    NewNameIsTemp(s, e.w);
    TempIsNoDest(dests, s.writers[e.w].dest, x);
    assert HoldsName(After(s, e), e.w, x);
  }

  lemma RenamedIsWritten(start: State, dests: set<Name>, s: State, e: Event)
    requires Inv(start, dests, s) && Allowed(dests, s, e) && e.Rename? && e.ok
    ensures Written(After(s, e), s.writers[e.w].dest)
  {
    hide NamesOk, FilesOk;
    assert HeldOk(start, s, e.w) && BytesOk(s, e.w);
  }

  lemma NameKept(start: State, dests: set<Name>, s: State, e: Event, x: Name)
    requires Apart(dests) && Starts(start) && Inv(start, dests, s) && Allowed(dests, s, e)
    ensures var r := After(s, e);
      AsBefore(start, r, x) || (x in dests && Written(r, x)) || (x !in dests && SomeoneHolds(r, x))
  {
    hide After, Enabled, Apart, Written, SomeoneHolds, IsTemp, NameOf, FilesOk, BytesOk, HeldOk;
    DirAfter(s, e, x);
    CountsAfter(s, e);
    if Frees(e) {
      ActsOnHeld(start, dests, s, e);
    }
    if e.Rename? && e.ok && x == s.writers[e.w].dest {
      RenamedIsWritten(start, dests, s, e);
    } else if Frees(e) && x == s.writers[e.w].pc.tmp {
      HeldIsNew(start, dests, s, e.w);
    } else {
      if Creates(e) {
        CreatedIsHeld(start, dests, s, e);
      }
      if !(Creates(e) && x == NameOf(s, e.w, s.writers[e.w].pc.n)) {
        if x in dests && Written(s, x) {
          WrittenIsThere(s, x);
          WrittenStays(start, dests, s, e, x);
        } else if x !in dests && SomeoneHolds(s, x) {
          HolderStays(s, e, x);
        }
      }
    }
  }

  lemma WrittenIsThere(s: State, x: Name)
    requires Written(s, x)
    ensures x in s.dir
  {
  }

  lemma HeldIsNew(start: State, dests: set<Name>, s: State, w: nat)
    requires Inv(start, dests, s) && w < |s.writers| && Held(s.writers[w].pc).Some?
    ensures Held(s.writers[w].pc).value.0 !in start.dir
  {
    assert HeldOk(start, s, w);
  }

  lemma StepKeepsInv(start: State, dests: set<Name>, s: State, e: Event)
    requires Apart(dests) && Starts(start) && Inv(start, dests, s) && Allowed(dests, s, e)
    ensures Inv(start, dests, After(s, e))
  {
    hide After, Apart, Starts, FilesOk, WritersOk, HeldOk, BytesOk, AsBefore, Written, SomeoneHolds, Enabled;
    FilesKept(start, dests, s, e);
    WritersKept(start, dests, s, e);
    forall w | 0 <= w < |After(s, e).writers|
      ensures HeldOk(start, After(s, e), w) && BytesOk(After(s, e), w)
    {
      HeldKept(start, dests, s, e, w);
      BytesKept(start, dests, s, e, w);
    }
    forall x: Name
      ensures AsBefore(start, After(s, e), x) || (x in dests && Written(After(s, e), x))
              || (x !in dests && SomeoneHolds(After(s, e), x))
    {
      NameKept(start, dests, s, e, x);
    }
  }

  lemma {:induction false} EveryRunKeepsInv(dests: set<Name>, trace: seq<State>, events: seq<Event>, k: nat)
    requires Apart(dests) && Run(dests, trace, events) && k < |trace|
    ensures Inv(trace[0], dests, trace[k])
  {
    hide Inv, Apart, After, Starts, Allowed;
    if k == 0 {
      InvStarts(dests, trace[0]);
    } else {
      EveryRunKeepsInv(dests, trace, events, k - 1);
      StepKeepsInv(trace[0], dests, trace[k - 1], events[k - 1]);
    }
  }

  // ---- What it means ----

  /** A name is absent as it was, or leads to what it led to, its bytes
      unchanged, or to the whole bytes of one writer of it, on the disk. */
  ghost predicate OldOrWhole(start: State, s: State, d: Name) {
    || (d !in s.dir && d !in start.dir)
    || (d in s.dir && d in start.dir && s.dir[d] == start.dir[d]
        && (!s.dir[d].Directory? ==>
              && s.dir[d].ino < |s.files| && s.dir[d].ino < |start.files|
              && s.files[s.dir[d].ino] == start.files[s.dir[d].ino]))
    || (d in s.dir && s.dir[d].Regular? && s.dir[d].ino < |s.files| && s.files[s.dir[d].ino].synced
        && exists w :: 0 <= w < |s.writers| && s.writers[w].dest == d && s.writers[w].pc == Returned(true)
                       && s.files[s.dir[d].ino].bytes == s.writers[w].bytes)
  }

  lemma DestinationIsOldOrWhole(dests: set<Name>, trace: seq<State>, events: seq<Event>, k: nat, d: Name)
    requires Apart(dests) && Run(dests, trace, events) && k < |trace| && d in dests
    ensures OldOrWhole(trace[0], trace[k], d)
  {
    hide Apart, After, SomeoneHolds, HeldOk, BytesOk;
    EveryRunKeepsInv(dests, trace, events, k);
  }

  /** Any other name that was there, a name a killed process left among them,
      stands for the same file with the same bytes; so does what a link led
      to, also when the link itself was replaced. */
  lemma OthersAreUntouched(dests: set<Name>, trace: seq<State>, events: seq<Event>, k: nat, x: Name, i: nat)
    requires Apart(dests) && Run(dests, trace, events) && k < |trace|
    ensures x in trace[0].dir && x !in dests ==> x in trace[k].dir && trace[k].dir[x] == trace[0].dir[x]
    ensures i < |trace[0].files| ==> i < |trace[k].files| && trace[k].files[i] == trace[0].files[i]
  {
    hide Apart, After, Written, BytesOk, NamesOk;
    EveryRunKeepsInv(dests, trace, events, k);
    if x in trace[0].dir && x !in dests {
      OldNameAsBefore(trace[0], dests, trace[k], x);
    }
  }

  lemma OldNameAsBefore(start: State, dests: set<Name>, s: State, x: Name)
    requires Inv(start, dests, s) && x in start.dir && x !in dests
    ensures AsBefore(start, s, x)
  {
    hide HeldOk, Written, BytesOk;
    if SomeoneHolds(s, x) {
      var w :| 0 <= w < |s.writers| && HoldsName(s, w, x);
      HeldIsNew(start, dests, s, w);
    }
  }

  /** A writer writes, renames and removes only the file it made, under the
      name it made it with; its rename changes no name but that and its own
      destination. */
  lemma WritersKeepToTheirOwn(start: State, dests: set<Name>, s: State, e: Event, x: Name, i: nat)
    requires Apart(dests) && Starts(start) && Inv(start, dests, s) && Allowed(dests, s, e)
    requires Actor(e).Some? && HasProcess(s, Actor(e).value)
    ensures var r, w := After(s, e), Actor(e).value;
      && (!((x in r.dir <==> x in s.dir) && (x in s.dir ==> r.dir[x] == s.dir[x])) ==>
            || HoldsName(s, w, x)
            || (e.Rename? && e.ok && x == s.writers[w].dest)
            || (Creates(e) && x !in s.dir && x == NameOf(s, w, s.writers[w].pc.n)))
      && (i < |s.files| ==> i < |r.files| && (r.files[i] != s.files[i] ==> s.files[i].maker == Some(w)))
  {
    hide After, Apart, NameOf, NamesOk, BytesOk, FilesOk;
    CountsAfter(s, e);
    DirAfter(s, e, x);
    if i < |s.files| {
      FilesAfter(s, e, i);
    }
    if e.Write? || e.Sync? || e.Rename? || e.Remove? {
      ActsOnHeld(start, dests, s, e);
    }
  }

  /** A writer that returned left nothing behind: what it made is at its
      destination or nowhere. What is left is left by one whose removal was
      refused or whose process died. */
  lemma ReturningLeavesNone(start: State, dests: set<Name>, s: State, x: Name)
    requires Inv(start, dests, s) && Starts(start)
    requires x in s.dir && s.dir[x].Regular? && s.dir[x].ino < |s.files| && s.files[s.dir[x].ino].maker.Some?
    ensures var w := s.files[s.dir[x].ino].maker.value;
      && w < |s.writers|
      && (s.writers[w].pc.Returned? ==> s.writers[w].pc.ok && x == s.writers[w].dest)
      && (x !in dests ==> Held(s.writers[w].pc).Some? && HoldsName(s, w, x))
  {
    hide BytesOk;
    if x !in dests || !Written(s, x) {
      if !AsBefore(start, s, x) {
        var w :| 0 <= w < |s.writers| && HoldsName(s, w, x);
        assert HeldOk(start, s, w);
      }
    }
  }
}
