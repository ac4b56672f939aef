/** How an update goes on: which of its steps end it, and that it ends in a bounded
number of them. */
module OtaProgress {
  import opened Wrappers
  import opened OtaUpdate

  /** The current step of process `i` fails: the download, the check of its digest, the
      copy of the backup, or one of the two renames. */
  predicate Fails(digest: Content -> Checksum, s: State, i: nat, ok: bool)
    requires i < |s.procs|
  {
    var p := s.procs[i];
    match p.pc
    case Downloading => !ok
    case Verifying => s.files.artifact.None? || digest(s.files.artifact.value) != p.sum
    case BackupCopy => !ok
    case Stage => !ok
    case Replace => !ok
    case _ => false
  }

  /** Where a step that works leads. */
  function Next(pc: Pc): Pc {
    match pc
    case Idle => Idle
    case Locking => Downloading
    case Downloading => Verifying
    case Verifying => BackupStart
    case BackupStart => BackupCopy
    case BackupCopy => Stage
    case Stage => Replace
    case Replace => Restarting
    case Restarting => Done
    case Done => Done
  }

  function At(s: State, i: nat, pc: Pc): seq<Process>
    requires i < |s.procs|
  {
    s.procs[i := s.procs[i].(pc := pc)]
  }

  /** A step of the process with the lock ends its command exactly when it fails or is
      the last.  Failing, it leaves all files as they were; either way the lock is
      released.  Otherwise the process goes on with the lock. */
  lemma StepEndsIff(digest: Content -> Checksum, initial: Content, s: State, i: nat, ok: bool)
    requires Sound(digest, initial, s) && i < |s.procs| && HoldsLock(s.procs[i].pc)
    ensures
      var t := Step(digest, s, Advance(i, ok));
      && (t.procs[i].pc.Done? <==> Fails(digest, s, i, ok) || s.procs[i].pc.Restarting?)
      && (t.procs[i].pc.Done? ==> t == s.(procs := At(s, i, Done), lock := None))
      && (!t.procs[i].pc.Done? ==> t.procs == At(s, i, Next(s.procs[i].pc)) && t.lock == Some(i))
  {
    assert s.lock == Some(i) && Relies(digest, s.files, s.procs[i]);
  }

  /** Only the replacement changes the binary, to what was staged. */
  lemma OnlyReplaceInstalls(digest: Content -> Checksum, initial: Content, s: State, a: Action)
    requires Sound(digest, initial, s)
    ensures
      var t := Step(digest, s, a);
      if a.Advance? && a.i < |s.procs| && s.procs[a.i].pc.Replace? && a.ok
      then s.files.staged.Some? && t.files.binary == s.files.staged.value && |t.history| == |s.history| + 1
      else t.files.binary == s.files.binary && t.history == s.history
  {
    if a.Advance? && a.i < |s.procs| && s.procs[a.i].pc.Replace? {
      assert s.lock == Some(a.i) && Relies(digest, s.files, s.procs[a.i]);
    }
  }

  /** A process takes the lock exactly when it is free and it can; turned away, it is
      done. */
  lemma LockIff(digest: Content -> Checksum, s: State, i: nat, ok: bool)
    requires i < |s.procs| && s.procs[i].pc.Locking?
    ensures
      var t := Step(digest, s, Advance(i, ok));
      if ok && s.lock.None? then t == s.(procs := At(s, i, Downloading), lock := Some(i))
      else t == s.(procs := At(s, i, Done))
  {
  }

  /** A rename moves a file: what was verified is staged, and what was staged is the
      binary, and neither is left where it was. */
  lemma RenamesMove(digest: Content -> Checksum, initial: Content, s: State, i: nat)
    requires Sound(digest, initial, s) && i < |s.procs|
    ensures
      var f, t := s.files, Step(digest, s, Advance(i, true)).files;
      && (s.procs[i].pc.Stage? ==> t == f.(artifact := None, staged := f.artifact))
      && (s.procs[i].pc.Replace? ==> t == f.(binary := t.binary, staged := None) && f.staged == Some(t.binary))
  {
    if s.procs[i].pc.Stage? || s.procs[i].pc.Replace? {
      assert s.lock == Some(i) && Relies(digest, s.files, s.procs[i]);
    }
  }

  /** A process does nothing until it is given a command and nothing once it is done, and
      takes a command exactly when it is idle. */
  lemma IdleWaits(digest: Content -> Checksum, s: State, i: nat, ok: bool, sum: Checksum)
    requires i < |s.procs|
    ensures s.procs[i].pc.Idle? || s.procs[i].pc.Done? ==> Step(digest, s, Advance(i, ok)) == s
    ensures
      Step(digest, s, Command(i, sum))
      == if s.procs[i].pc.Idle? then s.(procs := s.procs[i := Process(Locking, s.procs[i].version, sum)]) else s
  {
  }

  /** A crash releases the lock, and only that process's, leaves every file as it is, a
      partial copy too, and puts an idle process in the place of the old one. */
  lemma CrashReleases(digest: Content -> Checksum, s: State, i: nat, version: Version)
    requires LockSound(s) && i < |s.procs|
    ensures
      var t := Step(digest, s, Crash(i, version));
      && t.files == s.files && t.history == s.history
      && |t.procs| == |s.procs| && t.procs[i] == Process(Idle, version, 0)
      && (forall j :: 0 <= j < |s.procs| && j != i ==> t.procs[j] == s.procs[j])
      && t.lock != Some(i) && (s.lock != Some(i) ==> t.lock == s.lock)
  {
  }

  /** How many steps of its own a process still needs at most. */
  function Left(pc: Pc): nat {
    match pc
    case Idle => 0
    case Locking => 8
    case Downloading => 7
    case Verifying => 6
    case BackupStart => 5
    case BackupCopy => 4
    case Stage => 3
    case Replace => 2
    case Restarting => 1
    case Done => 0
  }

  /** The steps of process `i` among `acts`. */
  function Turns(acts: seq<Action>, i: nat): nat {
    if acts == [] then 0
    else (if acts[0].Advance? && acts[0].i == i then 1 else 0) + Turns(acts[1..], i)
  }

  lemma OwnStep(digest: Content -> Checksum, s: State, i: nat, ok: bool)
    requires i < |s.procs| && !s.procs[i].pc.Idle?
    ensures
      var t := Step(digest, s, Advance(i, ok));
      && |t.procs| == |s.procs| && !t.procs[i].pc.Idle?
      && (Left(t.procs[i].pc) < Left(s.procs[i].pc) || t.procs[i].pc.Done?)
  {
  }

  lemma OtherStep(digest: Content -> Checksum, s: State, i: nat, a: Action)
    requires i < |s.procs| && !s.procs[i].pc.Idle? && !(a.Advance? && a.i == i) && !(a.Crash? && a.i == i)
    ensures |Step(digest, s, a).procs| == |s.procs| && Step(digest, s, a).procs[i] == s.procs[i]
  {
  }

  lemma {:induction false} EndsByTurns(digest: Content -> Checksum, s: State, i: nat, acts: seq<Action>)
    requires i < |s.procs| && !s.procs[i].pc.Idle? && Spared(acts, i)
    requires Turns(acts, i) >= Left(s.procs[i].pc)
    ensures i < |Exec(digest, s, acts).procs| && Exec(digest, s, acts).procs[i].pc.Done?
    decreases |acts|
  {
    if s.procs[i].pc.Done? {
      DoneStaysDone(digest, s, i, acts);
    } else {
      var t := Step(digest, s, acts[0]);
      if acts[0].Advance? && acts[0].i == i {
        OwnStep(digest, s, i, acts[0].ok);
      } else {
        OtherStep(digest, s, i, acts[0]);
      }
      EndsByTurns(digest, t, i, acts[1..]);
    }
  }

  /** Once a command is accepted, at most eight steps of its process end it and leave it
      without the lock, whatever their results and whatever the other processes do. */
  lemma CommandEnds(digest: Content -> Checksum, start: State, before: seq<Action>, i: nat, acts: seq<Action>)
    requires Initial(start) && i < |Exec(digest, start, before).procs|
    requires !Exec(digest, start, before).procs[i].pc.Idle?
    requires Spared(acts, i) && Turns(acts, i) >= 8
    ensures
      var t := Exec(digest, Exec(digest, start, before), acts);
      i < |t.procs| && t.procs[i].pc.Done? && t.lock != Some(i)
  {
    var s := Exec(digest, start, before);
    EveryRunIsCrashSafe(digest, start, before);
    EndsByTurns(digest, s, i, acts);
    CrashSafe(digest, start.files.binary, s, acts);
  }
}
