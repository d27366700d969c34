/** bundle/src/fetch.rs's write_atomic, as the steps of any number of writers
    in any number of processes on one directory. A process may be killed, and
    the machine may lose power, between any two steps; a pid comes round again
    once its process is gone. */
module AtomicWrite {
  import opened Decimals

  type Name = string
  type Bytes = seq<bv8>

  /** What a name in the directory stands for. A link leads to a file outside
      the directory, or to none. */
  datatype Entry = Regular(ino: nat) | Link(ino: nat) | Directory

  /** A file's bytes, whether they are on the disk, and the writer that made
      it, when one of these did. */
  datatype File = File(bytes: Bytes, synced: bool, maker: Option<nat>)

  datatype Option<T> = None | Some(value: T)

  /** A process and its WRITES counter. */
  datatype Process = Process(pid: nat, counter: nat, alive: bool)

  /** Where a writer is in its call. */
  datatype Pc =
    | Ready                                   // before it takes a number
    | Took(n: nat)                            // before the open
    | Writing(tmp: Name, ino: nat, at: nat)   // at bytes written
    | Synced(tmp: Name, ino: nat)             // before the rename
    | Failing(tmp: Name, ino: nat)            // before the removal
    | Returned(ok: bool)
    | Left(tmp: Name, ino: nat)               // returned an error, its removal refused
    | Killed(was: Pc)

  datatype Writer = Writer(proc: nat, dest: Name, bytes: Bytes, pc: Pc)

  datatype State = State(dir: map<Name, Entry>, files: seq<File>, procs: seq<Process>, writers: seq<Writer>)

  datatype Opened = Made | Exists | Refused

  datatype Event =
    | Spawn(pid: nat)
    | Begin(p: nat, dest: Name, bytes: Bytes)
    | Take(w: nat)
    | Create(w: nat, how: Opened)
    | Write(w: nat, count: nat)
    | WriteFails(w: nat)
    | Sync(w: nat, ok: bool)
    | Rename(w: nat, ok: bool)
    | Remove(w: nat, ok: bool)
    | Kill(p: nat)
    | PowerLoss(garbage: seq<Bytes>)   // what files not synced come back with

  /** The name of a write: its own number in its own process. */
  function TempName(dest: Name, pid: nat, n: nat): Name {
    dest + ".partial." + Decimal(pid) + "." + Decimal(n)
  }

  predicate HasProcess(s: State, w: nat) { w < |s.writers| && s.writers[w].proc < |s.procs| }

  /** The name writer w tries with number n. */
  function NameOf(s: State, w: nat, n: nat): Name
    requires HasProcess(s, w)
  {
    TempName(s.writers[w].dest, s.procs[s.writers[w].proc].pid, n)
  }

  /** Still in its call. */
  predicate Running(pc: Pc) { !pc.Returned? && !pc.Left? && !pc.Killed? }

  predicate Enabled(s: State, e: Event) {
    match e
    case Spawn(pid) => forall p :: 0 <= p < |s.procs| && s.procs[p].pid == pid ==> !s.procs[p].alive
    case Begin(p, _, _) => p < |s.procs| && s.procs[p].alive
    case Take(w) => HasProcess(s, w) && s.writers[w].pc.Ready?
    case Create(w, how) =>
      && HasProcess(s, w) && s.writers[w].pc.Took?
      && (how.Made? ==> NameOf(s, w, s.writers[w].pc.n) !in s.dir)
      && (how.Exists? ==> NameOf(s, w, s.writers[w].pc.n) in s.dir)
    case Write(w, count) =>
      && w < |s.writers| && s.writers[w].pc.Writing? && s.writers[w].pc.ino < |s.files|
      && 0 < count && s.writers[w].pc.at + count <= |s.writers[w].bytes|
    case WriteFails(w) => w < |s.writers| && s.writers[w].pc.Writing?
    case Sync(w, ok) =>
      && w < |s.writers| && s.writers[w].pc.Writing? && s.writers[w].pc.ino < |s.files|
      && s.writers[w].pc.at == |s.writers[w].bytes|
    case Rename(w, ok) =>
      && w < |s.writers| && s.writers[w].pc.Synced?
      && (ok ==> s.writers[w].pc.tmp in s.dir
                 && (s.writers[w].dest in s.dir ==> !s.dir[s.writers[w].dest].Directory?))
    case Remove(w, ok) => w < |s.writers| && s.writers[w].pc.Failing? && (ok ==> s.writers[w].pc.tmp in s.dir)
    case Kill(p) => p < |s.procs|
    case PowerLoss(garbage) => |garbage| == |s.files|
  }

  function Moved(s: State, w: nat, pc: Pc): State
    requires w < |s.writers|
  {
    s.(writers := s.writers[w := s.writers[w].(pc := pc)])
  }

  /** Every writer of a process that stops, stopped where it is. */
  function Stopped(s: State, p: nat): (r: seq<Writer>)
    ensures |r| == |s.writers|
  {
    seq(|s.writers|, w requires 0 <= w < |s.writers| =>
      if s.writers[w].proc == p && Running(s.writers[w].pc) then s.writers[w].(pc := Killed(s.writers[w].pc))
      else s.writers[w])
  }

  function AllStopped(s: State): (r: seq<Writer>)
    ensures |r| == |s.writers|
  {
    seq(|s.writers|, w requires 0 <= w < |s.writers| =>
      if Running(s.writers[w].pc) then s.writers[w].(pc := Killed(s.writers[w].pc)) else s.writers[w])
  }

  function Lost(files: seq<File>, garbage: seq<Bytes>): (r: seq<File>)
    requires |garbage| == |files|
    ensures |r| == |files|
  {
    seq(|files|, i requires 0 <= i < |files| =>
      if files[i].synced then files[i] else files[i].(bytes := garbage[i]))
  }

  /** The bytes up to an offset, and the next ones written there. */
  function Put(file: Bytes, at: nat, more: Bytes): Bytes {
    (if at <= |file| then file[..at] else file + seq(at - |file|, _ => 0)) + more
    + (if at + |more| <= |file| then file[at + |more|..] else [])
  }

  function After(s: State, e: Event): State
    requires Enabled(s, e)
  {
    match e
    case Spawn(pid) => s.(procs := s.procs + [Process(pid, 0, true)])
    case Begin(p, dest, bytes) => s.(writers := s.writers + [Writer(p, dest, bytes, Ready)])
    case Take(w) =>
      var p := s.writers[w].proc;
      Moved(s, w, Took(s.procs[p].counter)).(procs := s.procs[p := s.procs[p].(counter := s.procs[p].counter + 1)])
    case Create(w, how) =>
      var tmp := NameOf(s, w, s.writers[w].pc.n);
      if how.Made? then
        Moved(s, w, Writing(tmp, |s.files|, 0)).(dir := s.dir[tmp := Regular(|s.files|)],
                                                 files := s.files + [File([], false, Some(w))])
      else Moved(s, w, if how.Exists? then Ready else Returned(false))
    case Write(w, count) =>
      var pc := s.writers[w].pc;
      var f := s.files[pc.ino];
      Moved(s, w, pc.(at := pc.at + count)).(files :=
        s.files[pc.ino := f.(bytes := Put(f.bytes, pc.at, s.writers[w].bytes[pc.at..pc.at + count]), synced := false)])
    case WriteFails(w) => Moved(s, w, Failing(s.writers[w].pc.tmp, s.writers[w].pc.ino))
    case Sync(w, ok) =>
      var pc := s.writers[w].pc;
      if ok then Moved(s, w, Synced(pc.tmp, pc.ino)).(files := s.files[pc.ino := s.files[pc.ino].(synced := true)])
      else Moved(s, w, Failing(pc.tmp, pc.ino))
    case Rename(w, ok) =>
      var pc := s.writers[w].pc;
      if ok then Moved(s, w, Returned(true)).(dir := (s.dir - {pc.tmp})[s.writers[w].dest := s.dir[pc.tmp]])
      else Moved(s, w, Failing(pc.tmp, pc.ino))
    case Remove(w, ok) =>
      var pc := s.writers[w].pc;
      if ok then Moved(s, w, Returned(false)).(dir := s.dir - {pc.tmp}) else Moved(s, w, Left(pc.tmp, pc.ino))
    case Kill(p) => s.(procs := s.procs[p := s.procs[p].(alive := false)], writers := Stopped(s, p))
    case PowerLoss(garbage) =>
      s.(files := Lost(s.files, garbage), writers := AllStopped(s),
         procs := seq(|s.procs|, p requires 0 <= p < |s.procs| => s.procs[p].(alive := false)))
  }
}
