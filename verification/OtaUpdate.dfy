/** Several update processes over one file system: they take turns by a lock, any
of them can crash at any point, a rename is atomic and a copy is not. */
module OtaUpdate {
  import opened Wrappers

  type Content = nat
  type Checksum = nat
  type Version = nat

  /** A backup is `Partial` from when a copy starts until it is done. */
  datatype Copy = Partial | Whole(content: Content)

  /** The temporary artifact, the renamed one, the binary and the backups. */
  datatype Files = Files(
    artifact: Option<Content>,
    staged: Option<Content>,
    binary: Content,
    backups: map<Version, Copy>)

  datatype Pc =
    | Idle
    | Locking
    | Downloading
    | Verifying
    | BackupStart
    | BackupCopy
    | Stage
    | Replace
    | Restarting
    | Done

  /** A process runs one version and serves a command for content with checksum
      `sum`. */
  datatype Process = Process(pc: Pc, version: Version, sum: Checksum)

  /** A replacement of the binary, as it happened. */
  datatype Install = Install(replaced: Content, installed: Content, sum: Checksum, backup: Copy)

  datatype State = State(files: Files, lock: Option<nat>, procs: seq<Process>, history: seq<Install>)

  /** `Command` is a valid command; `Write` is a part of a download; `Advance` is
      the end of the current step, with its result; `Crash` is the end of a process
      and of its children, and a new process in its place. */
  datatype Action =
    | Command(i: nat, sum: Checksum)
    | Write(i: nat, content: Content)
    | Advance(i: nat, ok: bool)
    | Crash(i: nat, version: Version)

  predicate HoldsLock(pc: Pc) {
    pc.Downloading? || pc.Verifying? || pc.BackupStart? || pc.BackupCopy? || pc.Stage? || pc.Replace? || pc.Restarting?
  }

  function Moved(s: State, i: nat, pc: Pc): State
    requires i < |s.procs|
  {
    s.(procs := s.procs[i := s.procs[i].(pc := pc)])
  }

  /** The end of the command, with the lock released. */
  function Ended(s: State, i: nat): State
    requires i < |s.procs|
  {
    Moved(s, i, Done).(lock := None)
  }

  function Advanced(digest: Content -> Checksum, s: State, i: nat, ok: bool): State
    requires i < |s.procs|
  {
    var p, f := s.procs[i], s.files;
    match p.pc
    case Idle => s
    case Locking => if ok && s.lock.None? then Moved(s, i, Downloading).(lock := Some(i)) else Moved(s, i, Done)
    case Downloading => if ok then Moved(s, i, Verifying) else Ended(s, i)
    case Verifying =>
      if f.artifact.Some? && digest(f.artifact.value) == p.sum then Moved(s, i, BackupStart) else Ended(s, i)
    case BackupStart => Moved(s, i, BackupCopy).(files := f.(backups := f.backups[p.version := Partial]))
    case BackupCopy =>
      if ok then Moved(s, i, Stage).(files := f.(backups := f.backups[p.version := Whole(f.binary)])) else Ended(s, i)
    case Stage =>
      if ok && f.artifact.Some? then Moved(s, i, Replace).(files := f.(artifact := None, staged := f.artifact))
      else Ended(s, i)
    case Replace =>
      if ok && f.staged.Some? && p.version in f.backups then
        Moved(s, i, Restarting).(files := f.(binary := f.staged.value, staged := None),
          history := s.history + [Install(f.binary, f.staged.value, p.sum, f.backups[p.version])])
      else Ended(s, i)
    case Restarting => Ended(s, i)
    case Done => s
  }

  function Step(digest: Content -> Checksum, s: State, a: Action): State {
    if a.i >= |s.procs| then s
    else match a
      case Command(i, sum) =>
        if s.procs[i].pc.Idle? then s.(procs := s.procs[i := s.procs[i].(pc := Locking, sum := sum)]) else s
      case Write(i, content) =>
        if s.procs[i].pc.Downloading? then s.(files := s.files.(artifact := Some(content))) else s
      case Advance(i, ok) => Advanced(digest, s, i, ok)
      case Crash(i, version) =>
        s.(procs := s.procs[i := Process(Idle, version, 0)], lock := if s.lock == Some(i) then None else s.lock)
  }

  function Exec(digest: Content -> Checksum, s: State, acts: seq<Action>): State
    decreases |acts|
  {
    if acts == [] then s else Exec(digest, Step(digest, s, acts[0]), acts[1..])
  }

  predicate Initial(s: State) {
    s.lock == None && s.history == [] && forall i :: 0 <= i < |s.procs| ==> s.procs[i].pc == Idle
  }

  // ---- What every schedule keeps ------------------------------------------

  /** The process with the lock is the only one past it. */
  predicate LockSound(s: State) {
    && (s.lock.Some? ==> s.lock.value < |s.procs| && HoldsLock(s.procs[s.lock.value].pc))
    && forall i :: 0 <= i < |s.procs| && HoldsLock(s.procs[i].pc) ==> s.lock == Some(i)
  }

  /** What process `p` relies on while it holds the lock. */
  predicate Relies(digest: Content -> Checksum, f: Files, p: Process) {
    && (p.pc.BackupStart? || p.pc.BackupCopy? || p.pc.Stage? ==>
          f.artifact.Some? && digest(f.artifact.value) == p.sum)
    && (p.pc.Replace? ==> f.staged.Some? && digest(f.staged.value) == p.sum)
    && (p.pc.Stage? || p.pc.Replace? ==> p.version in f.backups && f.backups[p.version] == Whole(f.binary))
  }

  /** A replacement put verified content in place, with the replaced binary in a
      complete backup. */
  predicate Proper(digest: Content -> Checksum, install: Install) {
    digest(install.installed) == install.sum && install.backup == Whole(install.replaced)
  }

  /** The binary after these replacements of `initial`. */
  function Latest(initial: Content, history: seq<Install>): Content {
    if history == [] then initial else history[|history| - 1].installed
  }

  /** Every replacement was proper and started from the binary that the one before
      it had left; the last one left `binary`. */
  predicate HistorySound(digest: Content -> Checksum, initial: Content, history: seq<Install>, binary: Content) {
    && (forall k :: 0 <= k < |history| ==>
          Proper(digest, history[k]) && history[k].replaced == Latest(initial, history[..k]))
    && binary == Latest(initial, history)
  }

  predicate Sound(digest: Content -> Checksum, initial: Content, s: State) {
    && LockSound(s)
    && (s.lock.Some? ==> Relies(digest, s.files, s.procs[s.lock.value]))
    && HistorySound(digest, initial, s.history, s.files.binary)
  }

  lemma AdvanceKeepsLock(digest: Content -> Checksum, s: State, i: nat, ok: bool)
    requires LockSound(s) && i < |s.procs|
    ensures LockSound(Advanced(digest, s, i, ok))
  {
    var t := Advanced(digest, s, i, ok);
    assert |t.procs| == |s.procs| && forall j :: 0 <= j < |s.procs| && j != i ==> t.procs[j] == s.procs[j];
    if HoldsLock(s.procs[i].pc) {
      assert s.lock == Some(i);
      assert t.lock == if HoldsLock(t.procs[i].pc) then Some(i) else None;
    } else {
      assert HoldsLock(t.procs[i].pc) ==> s.lock == None && t.lock == Some(i);
    }
  }

  /** What the process at work relies on afterwards; the others are not past the
      lock. */
  lemma AdvanceKeepsReliance(digest: Content -> Checksum, s: State, i: nat, ok: bool)
    requires i < |s.procs| && (HoldsLock(s.procs[i].pc) ==> Relies(digest, s.files, s.procs[i]))
    ensures
      var t := Advanced(digest, s, i, ok);
      HoldsLock(t.procs[i].pc) ==> Relies(digest, t.files, t.procs[i])
  {
  }

  lemma AdvanceKeepsOthers(digest: Content -> Checksum, s: State, i: nat, j: nat, ok: bool)
    requires LockSound(s) && i < |s.procs| && s.lock == Some(j) && i != j
    ensures Advanced(digest, s, i, ok).files == s.files && Advanced(digest, s, i, ok).lock == s.lock
    ensures Advanced(digest, s, i, ok).procs[j] == s.procs[j]
  {
  }

  lemma HistoryAppend(digest: Content -> Checksum, initial: Content, history: seq<Install>, binary: Content,
                      last: Install)
    requires HistorySound(digest, initial, history, binary)
    requires last.replaced == binary && digest(last.installed) == last.sum && last.backup == Whole(binary)
    ensures HistorySound(digest, initial, history + [last], last.installed)
  {
  }

  lemma AdvanceKeepsHistory(digest: Content -> Checksum, initial: Content, s: State, i: nat, ok: bool)
    requires i < |s.procs| && (HoldsLock(s.procs[i].pc) ==> Relies(digest, s.files, s.procs[i]))
    requires HistorySound(digest, initial, s.history, s.files.binary)
    ensures
      var t := Advanced(digest, s, i, ok);
      HistorySound(digest, initial, t.history, t.files.binary)
  {
    var p, f := s.procs[i], s.files;
    if p.pc.Replace? && ok {
      var last := Install(f.binary, f.staged.value, p.sum, f.backups[p.version]);
      HistoryAppend(digest, initial, s.history, f.binary, last);
    }
  }

  lemma AdvanceIsSound(digest: Content -> Checksum, initial: Content, s: State, i: nat, ok: bool)
    requires Sound(digest, initial, s) && i < |s.procs|
    ensures Sound(digest, initial, Advanced(digest, s, i, ok))
  {
    AdvanceKeepsLock(digest, s, i, ok);
    AdvanceKeepsReliance(digest, s, i, ok);
    AdvanceKeepsHistory(digest, initial, s, i, ok);
    if s.lock.Some? && s.lock.value != i {
      AdvanceKeepsOthers(digest, s, i, s.lock.value, ok);
    }
  }

  lemma StepIsSound(digest: Content -> Checksum, initial: Content, s: State, a: Action)
    requires Sound(digest, initial, s)
    ensures Sound(digest, initial, Step(digest, s, a))
  {
    if a.i < |s.procs| && a.Advance? {
      AdvanceIsSound(digest, initial, s, a.i, a.ok);
    }
  }

  /** However the processes interleave and crash, the binary is the initial one or
      the last of a chain of verified installs, each of which had a complete backup
      of the binary it replaced; and at most one process is past the lock. */
  lemma {:induction false} CrashSafe(digest: Content -> Checksum, initial: Content, s: State, acts: seq<Action>)
    requires Sound(digest, initial, s)
    ensures Sound(digest, initial, Exec(digest, s, acts))
    decreases |acts|
  {
    if acts != [] {
      StepIsSound(digest, initial, s, acts[0]);
      CrashSafe(digest, initial, Step(digest, s, acts[0]), acts[1..]);
    }
  }

  /** From processes that have not begun, every run is safe. */
  lemma EveryRunIsCrashSafe(digest: Content -> Checksum, s: State, acts: seq<Action>)
    requires Initial(s)
    ensures Sound(digest, s.files.binary, Exec(digest, s, acts))
  {
    CrashSafe(digest, s.files.binary, s, acts);
  }

  // ---- A process that is done -------------------------------------------

  /** Process `i` does not crash. */
  predicate Spared(acts: seq<Action>, i: nat) {
    forall k :: 0 <= k < |acts| ==> !(acts[k].Crash? && acts[k].i == i)
  }

  /** A process whose command has ended runs no further step, whatever commands
      come, until it is started anew. */
  lemma {:induction false} DoneStaysDone(digest: Content -> Checksum, s: State, i: nat, acts: seq<Action>)
    requires i < |s.procs| && s.procs[i].pc.Done? && Spared(acts, i)
    ensures i < |Exec(digest, s, acts).procs| && Exec(digest, s, acts).procs[i] == s.procs[i]
    decreases |acts|
  {
    if acts != [] {
      DoneStaysDone(digest, Step(digest, s, acts[0]), i, acts[1..]);
    }
  }

  // ---- How long a backup lasts --------------------------------------------

  /** A process of version `v` begins its backup. */
  predicate BeginsBackup(s: State, a: Action, v: Version) {
    a.Advance? && a.i < |s.procs| && s.procs[a.i].pc.BackupStart? && s.procs[a.i].version == v
  }

  predicate NoneBeginsBackup(digest: Content -> Checksum, s: State, acts: seq<Action>, v: Version)
    decreases |acts|
  {
    |acts| == 0 || (!BeginsBackup(s, acts[0], v) && NoneBeginsBackup(digest, Step(digest, s, acts[0]), acts[1..], v))
  }

  /** The backup of version `v` is a complete copy of `content`. */
  predicate BackedUp(s: State, v: Version, content: Content) {
    v in s.files.backups && s.files.backups[v] == Whole(content)
  }

  /** It is so in every state of the run. */
  predicate StaysBackedUp(digest: Content -> Checksum, s: State, acts: seq<Action>, v: Version, content: Content)
    decreases |acts|
  {
    BackedUp(s, v, content)
    && (|acts| == 0 || StaysBackedUp(digest, Step(digest, s, acts[0]), acts[1..], v, content))
  }

  predicate NoneCopies(s: State, v: Version) {
    forall i :: 0 <= i < |s.procs| ==> !(s.procs[i].pc.BackupCopy? && s.procs[i].version == v)
  }

  lemma StepKeepsBackup(digest: Content -> Checksum, s: State, a: Action, v: Version, content: Content)
    requires BackedUp(s, v, content) && NoneCopies(s, v) && !BeginsBackup(s, a, v)
    ensures BackedUp(Step(digest, s, a), v, content) && NoneCopies(Step(digest, s, a), v)
  {
    var t := Step(digest, s, a);
    assert |t.procs| == |s.procs| && forall j :: 0 <= j < |s.procs| && j != a.i ==> t.procs[j] == s.procs[j];
  }

  lemma {:induction false} RunKeepsBackupIff(digest: Content -> Checksum, s: State, acts: seq<Action>, v: Version,
                                             content: Content)
    requires BackedUp(s, v, content) && NoneCopies(s, v)
    ensures StaysBackedUp(digest, s, acts, v, content) <==> NoneBeginsBackup(digest, s, acts, v)
    decreases |acts|
  {
    if |acts| > 0 {
      if BeginsBackup(s, acts[0], v) {
        assert !BackedUp(Step(digest, s, acts[0]), v, content);
      } else {
        StepKeepsBackup(digest, s, acts[0], v, content);
        RunKeepsBackupIff(digest, Step(digest, s, acts[0]), acts[1..], v, content);
      }
    }
  }

  /** A binary that an update replaces stays in a complete backup exactly as long as
      no process of the version that replaced it begins another backup. */
  lemma ReplacedStaysBackedUpIff(digest: Content -> Checksum, initial: Content, s: State, i: nat, acts: seq<Action>)
    requires Sound(digest, initial, s) && i < |s.procs| && s.procs[i].pc.Replace?
    ensures
      var t, v := Step(digest, s, Advance(i, true)), s.procs[i].version;
      && t.history == s.history + [Install(s.files.binary, t.files.binary, s.procs[i].sum, Whole(s.files.binary))]
      && (StaysBackedUp(digest, t, acts, v, s.files.binary) <==> NoneBeginsBackup(digest, t, acts, v))
  {
    var t, v := Step(digest, s, Advance(i, true)), s.procs[i].version;
    assert s.lock == Some(i);
    assert forall j :: 0 <= j < |s.procs| && j != i ==> t.procs[j] == s.procs[j] && !HoldsLock(s.procs[j].pc);
    RunKeepsBackupIff(digest, t, acts, v, s.files.binary);
  }

  // ---- A backup overwritten -----------------------------------------------

  lemma {:induction false} ExecAppend(digest: Content -> Checksum, s: State, acts: seq<Action>, more: seq<Action>)
    ensures Exec(digest, s, acts + more) == Exec(digest, Exec(digest, s, acts), more)
    decreases |acts|
  {
    if acts == [] {
      assert acts + more == more;
    } else {
      assert (acts + more)[1..] == acts[1..] + more;
      ExecAppend(digest, Step(digest, s, acts[0]), acts[1..], more);
    }
  }

  lemma ExecFirst(digest: Content -> Checksum, s: State, a: Action, rest: seq<Action>)
    ensures Exec(digest, s, [a] + rest) == Exec(digest, Step(digest, s, a), rest)
  {
    assert ([a] + rest)[1..] == rest;
  }

  /** Process `i` takes a command for `content`, downloads and verifies it. */
  function Fetch(digest: Content -> Checksum, i: nat, content: Content): seq<Action> {
    [Command(i, digest(content))] + ([Advance(i, true)] + ([Write(i, content)] + ([Advance(i, true)]
      + ([Advance(i, true)] + []))))
  }

  lemma FetchRun(digest: Content -> Checksum, s: State, i: nat, content: Content)
    requires i < |s.procs| && s.procs[i].pc.Idle? && s.lock.None?
    ensures
      Exec(digest, s, Fetch(digest, i, content))
      == s.(procs := s.procs[i := Process(BackupStart, s.procs[i].version, digest(content))], lock := Some(i),
            files := s.files.(artifact := Some(content)))
  {
    var last := [Advance(i, true)] + [];
    var verify := [Advance(i, true)] + last;
    var write := [Write(i, content)] + verify;
    var lock := [Advance(i, true)] + write;
    ExecFirst(digest, s, Command(i, digest(content)), lock);
    var t := Step(digest, s, Command(i, digest(content)));
    ExecFirst(digest, t, Advance(i, true), write);
    t := Step(digest, t, Advance(i, true));
    ExecFirst(digest, t, Write(i, content), verify);
    t := Step(digest, t, Write(i, content));
    ExecFirst(digest, t, Advance(i, true), last);
    t := Step(digest, t, Advance(i, true));
    ExecFirst(digest, t, Advance(i, true), []);
  }

  /** The two steps of the backup, and the three that put the new binary in place. */
  function BackUp(i: nat): seq<Action> {
    [Advance(i, true)] + ([Advance(i, true)] + [])
  }

  function PutInPlace(i: nat): seq<Action> {
    [Advance(i, true)] + ([Advance(i, true)] + ([Advance(i, true)] + []))
  }

  function Update(digest: Content -> Checksum, i: nat, content: Content): seq<Action> {
    Fetch(digest, i, content) + (BackUp(i) + PutInPlace(i))
  }

  lemma CopyOverwrites(backups: map<Version, Copy>, v: Version, copy: Copy)
    ensures backups[v := Partial][v := copy] == backups[v := copy]
  {
  }

  lemma BackUpRun(digest: Content -> Checksum, s: State, i: nat)
    requires i < |s.procs| && s.procs[i].pc.BackupStart?
    ensures
      var t := Exec(digest, s, BackUp(i));
      && t.procs == s.procs[i := s.procs[i].(pc := Stage)]
      && t.files.binary == s.files.binary && t.files.artifact == s.files.artifact
      && t.files.backups == s.files.backups[s.procs[i].version := Whole(s.files.binary)]
  {
    var a := Advance(i, true);
    ExecFirst(digest, s, a, [a] + []);
    var t := Step(digest, s, a);
    ExecFirst(digest, t, a, []);
    CopyOverwrites(s.files.backups, s.procs[i].version, Whole(s.files.binary));
  }

  lemma PutInPlaceRun(digest: Content -> Checksum, s: State, i: nat, content: Content)
    requires i < |s.procs| && s.procs[i].pc.Stage? && s.files.artifact == Some(content)
    requires s.procs[i].version in s.files.backups
    ensures
      var t := Exec(digest, s, PutInPlace(i));
      && t.procs == s.procs[i := s.procs[i].(pc := Done)] && t.lock == None
      && t.files.binary == content && t.files.backups == s.files.backups
  {
    var a := Advance(i, true);
    var end := [a] + [];
    ExecFirst(digest, s, a, [a] + end);
    var t := Step(digest, s, a);
    ExecFirst(digest, t, a, end);
    t := Step(digest, t, a);
    ExecFirst(digest, t, a, []);
  }

  lemma UpdateRun(digest: Content -> Checksum, s: State, i: nat, content: Content)
    requires i < |s.procs| && s.procs[i].pc.Idle? && s.lock.None?
    ensures
      var t := Exec(digest, s, Update(digest, i, content));
      && t.procs == s.procs[i := Process(Done, s.procs[i].version, digest(content))] && t.lock == None
      && t.files.binary == content
      && t.files.backups == s.files.backups[s.procs[i].version := Whole(s.files.binary)]
  {
    FetchRun(digest, s, i, content);
    ExecAppend(digest, s, Fetch(digest, i, content), BackUp(i) + PutInPlace(i));
    var t := Exec(digest, s, Fetch(digest, i, content));
    BackUpRun(digest, t, i);
    ExecAppend(digest, t, BackUp(i), PutInPlace(i));
    PutInPlaceRun(digest, Exec(digest, t, BackUp(i)), i, content);
  }

  /** Two processes of one version update one after the other: the only copy of the
      first binary is gone. */
  lemma SecondUpdateOverwrites(digest: Content -> Checksum, s: State, first: Content, second: Content)
    requires Initial(s) && |s.procs| == 2 && s.procs[0].version == s.procs[1].version
    requires s.files.binary != first
    ensures
      var one, two := Update(digest, 0, first), Update(digest, 1, second);
      var t, u, v := Exec(digest, s, one), Exec(digest, s, one + two), s.procs[0].version;
      && t.files.binary == first && BackedUp(t, v, s.files.binary)
      && u.files.binary == second && BackedUp(u, v, first) && !BackedUp(u, v, s.files.binary)
  {
    UpdateRun(digest, s, 0, first);
    ExecAppend(digest, s, Update(digest, 0, first), Update(digest, 1, second));
    UpdateRun(digest, Exec(digest, s, Update(digest, 0, first)), 1, second);
  }
}
