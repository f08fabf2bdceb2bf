/** `write` and `read` of one environment's state file (`runtime/state.py`): temporary file, fsync,
    atomic rename, directory fsync, against a file system that persists what it likes when it
    likes. One writer at a time; a crash loses whatever is not durable. */
module StateFile {
  import opened Common

  /** A file's data as programs see it and as the disk holds it; `dirty` until an fsync. */
  datatype Inode = Inode(live: string, durable: string, dirty: bool)

  /** The two directory entries the protocol uses. */
  datatype Dir = Dir(path: Option<nat>, tmp: Option<nat>)

  datatype Pc = Idle | Writing(ino: nat, data: string) | Flushed(ino: nat, data: string) | Renamed

  /** `was` is what `read` returned when the latest write began, `now` what that write installs. */
  datatype State = State(inodes: map<nat, Inode>, live: Dir, durable: Dir, pc: Pc,
                         was: Option<string>, now: Option<string>)

  datatype Step =
    | OpenTmp(data: string, spare: nat)      // open(tmp, "w"): truncates or creates
    | WriteSome(n: nat)
    | SyncData                               // flush and fsync of the temporary file
    | WriteError                             // any exception before the rename: tmp is left behind
    | Replace                                // os.replace(tmp, path)
    | SyncDir(works: bool)                   // _fsync_dir; the call returns
    | DataWriteback(ino: nat, kept: string)  // an unsynced file's disk content is anyone's guess
    | DirWriteback
    | Crash

  function Read(s: State): Option<string>
  {
    match s.live.path
    case None => None
    case Some(i) => if i in s.inodes then Some(s.inodes[i].live) else None
  }

  predicate Enabled(s: State, step: Step)
  {
    match step
    case OpenTmp(_, spare) => s.pc.Idle? && spare !in s.inodes
    case WriteSome(n) => s.pc.Writing? && s.pc.ino in s.inodes &&
                         |s.inodes[s.pc.ino].live| + n <= |s.pc.data|
    case SyncData => s.pc.Writing? && s.pc.ino in s.inodes && s.inodes[s.pc.ino].live == s.pc.data
    case WriteError => s.pc.Writing? || s.pc.Flushed?
    case Replace => s.pc.Flushed?
    case SyncDir(_) => s.pc.Renamed?
    case DataWriteback(i, _) => i in s.inodes && s.inodes[i].dirty
    case DirWriteback => true
    case Crash => true
  }

  function Apply(s: State, step: Step): State
    requires Enabled(s, step)
  {
    match step
    case OpenTmp(data, spare) =>
      var i := if s.live.tmp.Some? then s.live.tmp.value else spare;
      var disk := if i in s.inodes then s.inodes[i].durable else "";
      s.(inodes := s.inodes[i := Inode("", disk, true)], live := s.live.(tmp := Some(i)),
         pc := Writing(i, data), was := Read(s), now := Some(data))
    case WriteSome(n) =>
      var f := s.inodes[s.pc.ino];
      s.(inodes := s.inodes[s.pc.ino := f.(live := f.live + s.pc.data[|f.live|..|f.live| + n], dirty := true)])
    case SyncData =>
      var f := s.inodes[s.pc.ino];
      s.(inodes := s.inodes[s.pc.ino := Inode(f.live, f.live, false)], pc := Flushed(s.pc.ino, s.pc.data))
    case WriteError => s.(pc := Idle)
    case Replace => s.(live := Dir(Some(s.pc.ino), None), pc := Renamed)
    case SyncDir(works) => s.(durable := if works then s.live else s.durable, pc := Idle)
    case DataWriteback(i, kept) => s.(inodes := s.inodes[i := s.inodes[i].(durable := kept)])
    case DirWriteback => s.(durable := s.live)
    case Crash =>
      s.(inodes := map i | i in s.inodes :: Inode(s.inodes[i].durable, s.inodes[i].durable, false),
         live := s.durable, pc := Idle)
  }

  const START := State(map[], Dir(None, None), Dir(None, None), Idle, None, None)

  ghost predicate Runs(s: State, steps: seq<Step>, t: State)
    decreases |steps|
  {
    if steps == [] then s == t
    else Enabled(s, steps[0]) && Runs(Apply(s, steps[0]), steps[1..], t)
  }

  /** What a crash leaves readable through directory `d`. */
  function OnDisk(s: State, d: Dir): Option<string>
  {
    match d.path
    case None => None
    case Some(i) => if i in s.inodes then Some(s.inodes[i].durable) else None
  }

  /** The file linked at the state path is complete on disk, and is not the temporary one. */
  ghost predicate LinkSound(s: State, d: Dir)
  {
    && (d.path.Some? ==>
          d.path.value in s.inodes && !s.inodes[d.path.value].dirty &&
          s.inodes[d.path.value].live == s.inodes[d.path.value].durable)
    && (d.tmp.Some? ==> d.tmp.value in s.inodes && d.tmp != d.path)
  }

  ghost predicate Inv(s: State)
  {
    && LinkSound(s, s.live) && LinkSound(s, s.durable)
    && (s.live.tmp.Some? ==> s.live.tmp != s.durable.path)
    && match s.pc
       case Idle => OnDisk(s, s.live) == OnDisk(s, s.durable)
       case Writing(i, data) =>
         && s.live.tmp == Some(i) && s.inodes[i].live <= data && s.now == Some(data)
         && OnDisk(s, s.live) == s.was && OnDisk(s, s.durable) == s.was
       case Flushed(i, data) =>
         && s.live.tmp == Some(i) && s.inodes[i] == Inode(data, data, false) && s.now == Some(data)
         && OnDisk(s, s.live) == s.was && OnDisk(s, s.durable) == s.was
       case Renamed =>
         && s.live.tmp.None?
         && OnDisk(s, s.live) == s.now && OnDisk(s, s.durable) in {s.was, s.now}
  }

  lemma StepKeepsInv(s: State, step: Step)
    requires Inv(s) && Enabled(s, step) && (step.SyncDir? ==> step.works)
    ensures Inv(Apply(s, step))
  {
    if step.WriteSome? {
      var f := s.inodes[s.pc.ino];
      assert f.live + s.pc.data[|f.live|..|f.live| + step.n] == s.pc.data[..|f.live| + step.n];
    }
  }

  lemma {:induction false} RunKeepsInv(s: State, steps: seq<Step>, t: State)
    requires Inv(s) && Runs(s, steps, t)
    requires forall i :: 0 <= i < |steps| && steps[i].SyncDir? ==> steps[i].works
    ensures Inv(t)
    decreases |steps|
  {
    if steps != [] {
      StepKeepsInv(s, steps[0]);
      assert forall i :: 0 <= i < |steps[1..]| ==> steps[1..][i] == steps[i + 1];
      RunKeepsInv(Apply(s, steps[0]), steps[1..], t);
    }
  }

  /** Crash-atomic state. After any history of writes, errors, writebacks and crashes, a crash
      now leaves `read` returning what it returned before the write in progress or the whole of
      what that write installs; once a write has returned, exactly what it installed. */
  lemma CrashLeavesOldOrNew(steps: seq<Step>, s: State)
    requires Runs(START, steps, s)
    requires forall i :: 0 <= i < |steps| && steps[i].SyncDir? ==> steps[i].works
    ensures var after := Read(Apply(s, Crash));
            && (s.pc.Idle? ==> after == Read(s))
            && (s.pc.Writing? || s.pc.Flushed? ==> Read(s) == s.was && after == s.was)
            && (s.pc.Renamed? ==> Read(s) == s.now && after in {s.was, s.now})
  {
    RunKeepsInv(START, steps, s);
    var t := Apply(s, Crash);
    assert s.durable.path.Some? ==> s.durable.path.value in t.inodes;
    assert Read(t) == OnDisk(s, s.durable);
    assert Read(s) == OnDisk(s, s.live);
  }

  /** A write that runs to its end is what `read` returns, and a crash does not take it back. */
  lemma ReturnedWriteIsDurable(steps: seq<Step>, s: State)
    requires Runs(START, steps, s) && s.pc.Renamed?
    requires forall i :: 0 <= i < |steps| && steps[i].SyncDir? ==> steps[i].works
    ensures var done := Apply(s, SyncDir(true));
            Read(done) == s.now && Read(Apply(done, Crash)) == s.now
  {
    RunKeepsInv(START, steps, s);
    var done := Apply(s, SyncDir(true));
    var t := Apply(done, Crash);
    assert done.durable.path.Some? ==> done.durable.path.value in t.inodes;
    assert Read(done) == OnDisk(done, done.live);
  }

  /** The steps of a write that meets no error, whatever the temporary file of an earlier one left. */
  function WholeWrite(data: string, spare: nat): seq<Step>
  {
    [OpenTmp(data, spare), WriteSome(|data|), SyncData, Replace, SyncDir(true)]
  }

  /** From every idle state a write can run to its end, and then its data is what `read` returns. */
  lemma WriteCompletes(s: State, data: string) returns (t: State)
    requires s.pc.Idle?
    ensures Runs(s, WholeWrite(data, Unused(s.inodes.Keys)), t)
    ensures t.pc.Idle? && Read(t) == Some(data) && Read(Apply(t, Crash)) == Some(data)
  {
    var steps := WholeWrite(data, Unused(s.inodes.Keys));
    var s1 := Apply(s, steps[0]);
    var s2 := Apply(s1, steps[1]);
    assert "" + data[0..|data|] == data;
    var s3 := Apply(s2, steps[2]);
    var s4 := Apply(s3, steps[3]);
    t := Apply(s4, steps[4]);
    assert Runs(t, steps[5..], t);
    assert steps[4..][1..] == steps[5..];
    assert Runs(s4, steps[4..], t);
    assert steps[3..][1..] == steps[4..];
    assert Runs(s3, steps[3..], t);
    assert steps[2..][1..] == steps[3..];
    assert Runs(s2, steps[2..], t);
    assert steps[1..][1..] == steps[2..];
    assert Runs(s1, steps[1..], t);
    assert Runs(s, steps, t);
  }

  /** What was opened or written without an fsync is anyone's guess on disk. */
  lemma UnsyncedIsAnyonesGuess(s: State, step: Step, kept: string)
    requires Enabled(s, step) && (step.OpenTmp? || step.WriteSome?)
    ensures var t := Apply(s, step);
            && t.pc.Writing? && Enabled(t, DataWriteback(t.pc.ino, kept))
            && Apply(Apply(t, DataWriteback(t.pc.ino, kept)), Crash).inodes[t.pc.ino].live == kept
  {
  }

  // ----- when a directory fsync may silently fail

  /** Nothing, or the whole of what some write of the history was given. */
  ghost predicate WholeOrNone(content: Option<string>, steps: seq<Step>)
  {
    content.None? || exists i :: 0 <= i < |steps| && steps[i].OpenTmp? && steps[i].data == content.value
  }

  /** Whatever the directories point to is whole, on disk and as programs see it. */
  ghost predicate Untorn(s: State, done: seq<Step>)
  {
    && LinkSound(s, s.live) && LinkSound(s, s.durable)
    && (s.live.tmp.Some? ==> s.live.tmp != s.durable.path)
    && WholeOrNone(OnDisk(s, s.live), done) && WholeOrNone(OnDisk(s, s.durable), done)
    && match s.pc
       case Idle => true
       case Writing(i, data) => s.live.tmp == Some(i) && s.inodes[i].live <= data && WholeOrNone(Some(data), done)
       case Flushed(i, data) => s.live.tmp == Some(i) && s.inodes[i] == Inode(data, data, false) && WholeOrNone(Some(data), done)
       case Renamed => s.live.tmp.None?
  }

  lemma WholeStays(content: Option<string>, done: seq<Step>, step: Step)
    requires WholeOrNone(content, done)
    ensures WholeOrNone(content, done + [step])
  {
    if content.Some? {
      var i :| 0 <= i < |done| && done[i].OpenTmp? && done[i].data == content.value;
      assert (done + [step])[i] == done[i];
    }
  }

  lemma StepKeepsUntorn(s: State, step: Step, done: seq<Step>)
    requires Untorn(s, done) && Enabled(s, step)
    ensures Untorn(Apply(s, step), done + [step])
  {
    hide WholeOrNone;
    WholeStays(OnDisk(s, s.live), done, step);
    WholeStays(OnDisk(s, s.durable), done, step);
    if s.pc.Writing? || s.pc.Flushed? {
      WholeStays(Some(s.pc.data), done, step);
    }
    if step.OpenTmp? {
      assert (done + [step])[|done|] == step;
      NewIsWhole(done, step);
    }
    if step.WriteSome? {
      var f := s.inodes[s.pc.ino];
      assert f.live + s.pc.data[|f.live|..|f.live| + step.n] == s.pc.data[..|f.live| + step.n];
    }
  }

  lemma NewIsWhole(done: seq<Step>, step: Step)
    requires step.OpenTmp?
    ensures WholeOrNone(Some(step.data), done + [step])
  {
    assert (done + [step])[|done|] == step;
  }

  lemma {:induction false} RunKeepsUntorn(s: State, done: seq<Step>, steps: seq<Step>, t: State)
    requires Untorn(s, done) && Runs(s, steps, t)
    ensures Untorn(t, done + steps)
    decreases |steps|
  {
    if steps == [] {
      assert done + steps == done;
    } else {
      StepKeepsUntorn(s, steps[0], done);
      RunKeepsUntorn(Apply(s, steps[0]), done + [steps[0]], steps[1..], t);
      assert done + [steps[0]] + steps[1..] == done + steps;
    }
  }

  /** Never torn. Whatever the directory fsyncs did, after any history `read` returns nothing or the
      whole of what some write was given, and a crash changes that only to another such. */
  lemma CrashNeverTears(steps: seq<Step>, s: State)
    requires Runs(START, steps, s)
    ensures WholeOrNone(Read(s), steps) && WholeOrNone(Read(Apply(s, Crash)), steps)
  {
    assert Untorn(START, []);
    RunKeepsUntorn(START, [], steps, s);
    assert [] + steps == steps;
    var t := Apply(s, Crash);
    assert s.durable.path.Some? ==> s.durable.path.value in t.inodes;
    assert Read(t) == OnDisk(s, s.durable) && Read(s) == OnDisk(s, s.live);
  }

  /** A write that has returned is lost by a crash exactly when its directory fsync failed and the
      directory on disk still leads to other content. */
  lemma ReturnedWriteSurvivesIff(steps: seq<Step>, s: State, works: bool)
    requires Runs(START, steps, s) && s.pc.Renamed?
    ensures Read(Apply(Apply(s, SyncDir(works)), Crash)) == Read(s) <==> works || OnDisk(s, s.durable) == OnDisk(s, s.live)
  {
    assert Untorn(START, []);
    RunKeepsUntorn(START, [], steps, s);
    var done := Apply(s, SyncDir(works));
    var t := Apply(done, Crash);
    assert done.durable.path.Some? ==> done.durable.path.value in t.inodes;
    assert Read(t) == OnDisk(done, done.durable) && Read(s) == OnDisk(s, s.live);
  }
}
