/** The configuration manager's write path: writers swap the configuration in
memory and mark it for flushing, a thread flushes it, and `start` and `stop` are
called by one thread.

`C` is a configuration; a file that holds one is the text printed for it. */
module ConfigFlush {

  /** `Foreign` is a file this program did not print. */
  datatype Disk<C> = Missing | Foreign | Printed(config: C)

  datatype FlusherPc<C> = NotRunning | Wait | Snapshot | Rename(text: C)

  /** Where the thread that calls `start` and `stop` is.  `cleared` says whether
      `stop` took back a mark. */
  datatype CallerPc<C> =
    | Outside
    | StartLoad
    | StartMark
    | StartExchange
    | StopClear
    | StopExchange(cleared: bool)
    | StopJoin
    | FinalSnapshot
    | FinalRename(text: C)

  /** `unmarked` counts the writers between their swap and their mark.  `applied`
      records a first update; `failed` a failed flush and `takenBack` a `stop` that
      took back a mark without a flush thread to stop, until a flush succeeds. */
  datatype State<C> = State(
    current: C,
    file: Disk<C>,
    pending: bool,
    running: bool,
    unmarked: nat,
    flusher: FlusherPc<C>,
    caller: CallerPc<C>,
    applied: bool,
    failed: bool,
    takenBack: bool)

  /** `loaded` is what `apply_json` makes of the file; `ok` is whether the
      temporary file can be opened. */
  datatype Action<C> =
    | Swap(config: C)
    | Mark
    | Flush(ok: bool)
    | CallStart
    | CallStop
    | Call(loaded: C, ok: bool)

  function Init<C>(defaults: C, file: Disk<C>): State<C> {
    State(defaults, file, false, false, 0, NotRunning, Outside, false, false, false)
  }

  /** `flush_loop` and its `flush_to_disk`: the mark is cleared before the
      configuration is read. */
  function FlushStep<C>(s: State<C>, ok: bool): State<C> {
    match s.flusher
    case NotRunning => s
    case Wait =>
      if !s.running then s.(flusher := NotRunning)
      else if s.pending then s.(pending := false, flusher := Snapshot)
      else s
    case Snapshot => if ok then s.(flusher := Rename(s.current)) else s.(flusher := Wait, failed := true)
    case Rename(text) => s.(file := Printed(text), flusher := Wait, failed := false, takenBack := false)
  }

  function CallStep<C>(s: State<C>, loaded: C, ok: bool): State<C> {
    match s.caller
    case Outside => s
    case StartLoad =>
      if s.file.Missing? then s.(caller := StartExchange)
      else s.(current := loaded, applied := true, unmarked := s.unmarked + 1, caller := StartMark)
    case StartMark =>
      if s.unmarked > 0 then s.(pending := true, unmarked := s.unmarked - 1, caller := StartExchange) else s
    case StartExchange =>
      if s.running then s.(caller := Outside) else s.(running := true, flusher := Wait, caller := Outside)
    case StopClear => s.(pending := false, caller := StopExchange(s.pending))
    case StopExchange(cleared) =>
      if s.running then s.(running := false, caller := StopJoin)
      else s.(caller := Outside, takenBack := s.takenBack || cleared)
    case StopJoin => if s.flusher.NotRunning? then s.(caller := FinalSnapshot) else s
    case FinalSnapshot => if ok then s.(caller := FinalRename(s.current)) else s.(caller := Outside, failed := true)
    case FinalRename(text) => s.(file := Printed(text), caller := Outside, failed := false, takenBack := false)
  }

  /** One step of one thread; a thread that cannot move stays where it is. */
  function Step<C>(s: State<C>, a: Action<C>): State<C> {
    match a
    case Swap(config) => s.(current := config, applied := true, unmarked := s.unmarked + 1)
    case Mark =>
      // The caller of `start` marks its own update.
      if s.unmarked > (if s.caller.StartMark? then 1 else 0) then s.(pending := true, unmarked := s.unmarked - 1) else s
    case Flush(ok) => FlushStep(s, ok)
    case CallStart => if s.caller.Outside? then s.(caller := StartLoad) else s
    case CallStop => if s.caller.Outside? then s.(caller := StopClear) else s
    case Call(loaded, ok) => CallStep(s, loaded, ok)
  }

  function Exec<C>(s: State<C>, acts: seq<Action<C>>): State<C>
    decreases |acts|
  {
    if acts == [] then s else Exec(Step(s, acts[0]), acts[1..])
  }

  // ---- What every schedule keeps ------------------------------------------

  /** A flush of the current configuration is still to come. */
  predicate Due<C>(s: State<C>) {
    || s.pending
    || s.unmarked > 0
    || s.caller.StopJoin? || s.caller.FinalSnapshot?
    || (s.caller.StopExchange? && s.caller.cleared)
  }

  /** What a flush that is under way is about to put in place. */
  function UnderWay<C>(s: State<C>): Disk<C> {
    if s.caller.FinalRename? then Printed(s.caller.text)
    else match s.flusher
      case Rename(text) => Printed(text)
      case Snapshot => Printed(s.current)
      case _ => Missing
  }

  /** Which threads can be where. */
  predicate Staged<C>(s: State<C>) {
    && (s.caller.StartMark? ==> s.unmarked > 0)
    && (s.caller.FinalSnapshot? || s.caller.FinalRename? ==> s.flusher.NotRunning? && !s.running)
    && (s.caller.StopJoin? ==> !s.running)
    && (s.flusher.NotRunning? ==> !s.running)
    && (s.running || s.flusher.NotRunning? || s.caller.StopJoin?)
  }

  /** A flush under way writes the current configuration, or another is due; with
      none under way and none due, the file holds the current configuration, unless
      there never was one to write, or a flush has failed or been called off since. */
  predicate Covered<C(==)>(s: State<C>) {
    Due(s)
    || if !UnderWay(s).Missing? then UnderWay(s) == Printed(s.current)
       else s.failed || s.takenBack || !s.applied || s.file == Printed(s.current)
  }

  predicate Sound<C(==)>(s: State<C>) {
    Staged(s) && Covered(s)
  }

  lemma FlushIsSound<C>(s: State<C>, ok: bool)
    requires Sound(s)
    ensures Sound(FlushStep(s, ok))
  {
  }

  lemma StartKeepsStaged<C>(s: State<C>, loaded: C, ok: bool)
    requires Staged(s) && (s.caller.StartLoad? || s.caller.StartMark? || s.caller.StartExchange?)
    ensures Staged(CallStep(s, loaded, ok))
  {
  }

  lemma StopKeepsStaged<C>(s: State<C>, loaded: C, ok: bool)
    requires Staged(s) && !s.caller.StartLoad? && !s.caller.StartMark? && !s.caller.StartExchange?
    ensures Staged(CallStep(s, loaded, ok))
  {
  }

  lemma CallKeepsStaged<C>(s: State<C>, loaded: C, ok: bool)
    requires Staged(s)
    ensures Staged(CallStep(s, loaded, ok))
  {
    if s.caller.StartLoad? || s.caller.StartMark? || s.caller.StartExchange? {
      StartKeepsStaged(s, loaded, ok);
    } else {
      StopKeepsStaged(s, loaded, ok);
    }
  }

  lemma StartKeepsCovered<C>(s: State<C>, loaded: C, ok: bool)
    requires Sound(s) && (s.caller.StartLoad? || s.caller.StartMark? || s.caller.StartExchange?)
    ensures Covered(CallStep(s, loaded, ok))
  {
  }

  lemma StopKeepsCovered<C>(s: State<C>, loaded: C, ok: bool)
    requires Sound(s) && (s.caller.StopClear? || s.caller.StopExchange? || s.caller.StopJoin?)
    ensures Covered(CallStep(s, loaded, ok))
  {
  }

  lemma FinalKeepsCovered<C>(s: State<C>, loaded: C, ok: bool)
    requires Sound(s) && (s.caller.FinalSnapshot? || s.caller.FinalRename? || s.caller.Outside?)
    ensures Covered(CallStep(s, loaded, ok))
  {
  }

  lemma CallIsSound<C>(s: State<C>, loaded: C, ok: bool)
    requires Sound(s)
    ensures Sound(CallStep(s, loaded, ok))
  {
    CallKeepsStaged(s, loaded, ok);
    match s.caller
    case StopClear => StopKeepsCovered(s, loaded, ok);
    case StopExchange(_) => StopKeepsCovered(s, loaded, ok);
    case StopJoin => StopKeepsCovered(s, loaded, ok);
    case StartLoad => StartKeepsCovered(s, loaded, ok);
    case StartMark => StartKeepsCovered(s, loaded, ok);
    case StartExchange => StartKeepsCovered(s, loaded, ok);
    case _ => FinalKeepsCovered(s, loaded, ok);
  }

  lemma StepIsSound<C>(s: State<C>, a: Action<C>)
    requires Sound(s)
    ensures Sound(Step(s, a))
  {
    match a
    case Flush(ok) => FlushIsSound(s, ok);
    case Call(loaded, ok) => CallIsSound(s, loaded, ok);
    case _ =>
  }

  lemma {:induction false} ExecIsSound<C>(s: State<C>, acts: seq<Action<C>>)
    requires Sound(s)
    ensures Sound(Exec(s, acts))
    decreases |acts|
  {
    if acts != [] {
      StepIsSound(s, acts[0]);
      ExecIsSound(Step(s, acts[0]), acts[1..]);
    }
  }

  /** Nobody is between a swap and its mark, flushing, or stopping. */
  predicate Quiet<C>(s: State<C>) {
    && !s.pending && s.unmarked == 0
    && (s.flusher.NotRunning? || s.flusher.Wait?)
    && (s.caller.Outside? || s.caller.StartLoad? || s.caller.StartExchange? || s.caller.StopClear?)
  }

  /** With nothing marked and nobody at work, the file is up to date, if the last
      flush did not fail and none was called off since. */
  lemma QuietMeansFlushed<C>(defaults: C, file: Disk<C>, acts: seq<Action<C>>)
    ensures
      var s := Exec(Init(defaults, file), acts);
      Quiet(s) && s.applied && !s.failed && !s.takenBack ==> s.file == Printed(s.current)
  {
    ExecIsSound(Init(defaults, file), acts);
  }

  function FlushSteps<C>(s: State<C>, n: nat): State<C>
    decreases n
  {
    if n == 0 then s else FlushSteps(FlushStep(s, true), n - 1)
  }

  lemma FlusherIdles<C>(s: State<C>, n: nat)
    requires s.running && s.flusher.Wait? && !s.pending
    ensures FlushSteps(s, n) == s
  {
    if n > 0 {
      FlusherIdles(s, n - 1);
    }
  }

  lemma MarkIsFlushed<C>(s: State<C>, n: nat)
    requires s.running && s.flusher.Wait? && s.pending && n >= 3
    ensures
      var t := FlushSteps(s, n);
      t.file == Printed(s.current) && t.current == s.current && !t.pending
  {
    var cleared := FlushStep(s, true);
    var written := FlushStep(FlushStep(cleared, true), true);
    assert FlushSteps(s, n) == FlushSteps(FlushStep(cleared, true), n - 2) == FlushSteps(written, n - 3);
    FlusherIdles(written, n - 3);
  }

  lemma WaitingCatchesUp<C>(s: State<C>, n: nat)
    requires s.running && s.flusher.Wait? && n >= 3
    ensures
      var t := FlushSteps(s, n);
      && t.current == s.current && !t.pending
      && t.file == if s.pending then Printed(s.current) else s.file
  {
    if s.pending {
      MarkIsFlushed(s, n);
    } else {
      FlusherIdles(s, n);
    }
  }

  /** Left alone, five steps of the flush thread of a running manager bring the
      file up to date exactly when a mark is set, a flush is under way, or it
      already was. */
  lemma FlusherCatchesUpIff<C>(defaults: C, file: Disk<C>, acts: seq<Action<C>>)
    requires
      var s := Exec(Init(defaults, file), acts);
      s.running && s.caller.Outside? && s.unmarked == 0
    ensures
      var s := Exec(Init(defaults, file), acts);
      var t := FlushSteps(s, 5);
      && t.current == s.current && !t.pending
      && (t.file == Printed(s.current) <==> s.pending || !s.flusher.Wait? || s.file == Printed(s.current))
  {
    var s := Exec(Init(defaults, file), acts);
    ExecIsSound(Init(defaults, file), acts);
    match s.flusher
    case Wait => WaitingCatchesUp(s, 5);
    case Rename(_) => WaitingCatchesUp(FlushStep(s, true), 4);
    case Snapshot =>
      var t := FlushStep(s, true);
      assert FlushSteps(s, 5) == FlushSteps(t, 4) == FlushSteps(FlushStep(t, true), 3);
      WaitingCatchesUp(FlushStep(t, true), 3);
  }

  // ---- What the history records -------------------------------------------

  /** A fresh manager has nothing to write, and nothing has failed. */
  lemma FreshIsQuiet<C>(defaults: C, file: Disk<C>)
    ensures
      var s := Init(defaults, file);
      Quiet(s) && !s.running && !s.applied && !s.failed && !s.takenBack && s.current == defaults && s.file == file
  {
  }

  /** The step opens a temporary file, or tries to. */
  predicate Opens<C>(s: State<C>, a: Action<C>) {
    (a.Flush? && s.flusher.Snapshot?) || (a.Call? && s.caller.FinalSnapshot?)
  }

  /** The step puts a printed file in place. */
  predicate Writes<C>(s: State<C>, a: Action<C>) {
    (a.Flush? && s.flusher.Rename?) || (a.Call? && s.caller.FinalRename?)
  }

  /** The file changes only when a flush puts what it printed in its place. */
  lemma FileChangesIff<C>(s: State<C>, a: Action<C>)
    ensures
      Step(s, a).file ==
        if !Writes(s, a) then s.file
        else if a.Flush? then Printed(s.flusher.text)
        else Printed(s.caller.text)
  {
  }

  /** A failed open is remembered until a flush succeeds. */
  lemma FailedIff<C>(s: State<C>, a: Action<C>)
    ensures Step(s, a).failed <==> (Opens(s, a) && !a.ok) || (s.failed && !Writes(s, a))
  {
  }

  /** So is a mark taken back by a `stop` that had no thread to stop. */
  lemma TakenBackIff<C>(s: State<C>, a: Action<C>)
    ensures
      Step(s, a).takenBack <==>
        || (a.Call? && s.caller.StopExchange? && s.caller.cleared && !s.running)
        || (s.takenBack && !Writes(s, a))
  {
  }

  /** `start` takes a configuration from the file. */
  predicate Loads<C>(s: State<C>, a: Action<C>) {
    a.Call? && s.caller.StartLoad? && !s.file.Missing?
  }

  lemma OthersApplyNone<C>(s: State<C>, loaded: C, ok: bool)
    requires !s.caller.StartLoad?
    ensures CallStep(s, loaded, ok).applied == s.applied && CallStep(s, loaded, ok).current == s.current
  {
  }

  lemma CallAppliesIff<C>(s: State<C>, loaded: C, ok: bool)
    ensures
      var t, loads := CallStep(s, loaded, ok), Loads(s, Call(loaded, ok));
      (t.applied <==> s.applied || loads) && t.current == if loads then loaded else s.current
  {
    if !s.caller.StartLoad? {
      OthersApplyNone(s, loaded, ok);
    }
  }

  lemma FlushAppliesNone<C>(s: State<C>, ok: bool)
    ensures FlushStep(s, ok).applied == s.applied && FlushStep(s, ok).current == s.current
  {
  }

  /** The configuration changes only by the update of a writer or what `start` loads. */
  lemma UpdatesIff<C>(s: State<C>, a: Action<C>)
    ensures Step(s, a).applied <==> s.applied || a.Swap? || Loads(s, a)
    ensures Step(s, a).current == if a.Swap? then a.config else if Loads(s, a) then a.loaded else s.current
  {
    match a
    case Call(loaded, ok) => CallAppliesIff(s, loaded, ok);
    case Flush(ok) => FlushAppliesNone(s, ok);
    case _ =>
  }

  /** A mark is set: by a writer for its update, or by the caller of `start` for its own. */
  predicate Marks<C>(s: State<C>, a: Action<C>) {
    || (a.Mark? && s.unmarked > if s.caller.StartMark? then 1 else 0)
    || (a.Call? && s.caller.StartMark? && s.unmarked > 0)
  }

  lemma StartUnmarks<C>(s: State<C>, loaded: C, ok: bool)
    requires s.caller.StartLoad? || s.caller.StartMark?
    ensures
      var t, a := CallStep(s, loaded, ok), Call(loaded, ok);
      && t.unmarked == s.unmarked + (if Loads(s, a) then 1 else 0) - (if Marks(s, a) then 1 else 0)
      && (Marks(s, a) ==> t.pending)
  {
  }

  lemma OthersUnmark<C>(s: State<C>, loaded: C, ok: bool)
    requires !s.caller.StartLoad? && !s.caller.StartMark?
    ensures CallStep(s, loaded, ok).unmarked == s.unmarked
  {
  }

  lemma FlushUnmarks<C>(s: State<C>, ok: bool)
    ensures FlushStep(s, ok).unmarked == s.unmarked
  {
  }

  /** Every update waits for its own mark, and each mark makes a flush due. */
  lemma UnmarkedCounts<C>(s: State<C>, a: Action<C>)
    ensures
      Step(s, a).unmarked == s.unmarked + (if a.Swap? || Loads(s, a) then 1 else 0) - (if Marks(s, a) then 1 else 0)
    ensures Marks(s, a) ==> Step(s, a).pending
  {
    match a
    case Call(loaded, ok) =>
      if s.caller.StartLoad? || s.caller.StartMark? {
        StartUnmarks(s, loaded, ok);
      } else {
        OthersUnmark(s, loaded, ok);
      }
    case Flush(ok) => FlushUnmarks(s, ok);
    case _ =>
  }

  /** A flush that fails to open its file is over: the thread waits for the next mark, and
      without one it never writes. */
  lemma FailedFlushIsOver<C>(s: State<C>, n: nat)
    requires s.running && s.flusher.Snapshot? && !s.pending
    ensures FlushStep(s, false) == s.(flusher := Wait, failed := true)
    ensures FlushSteps(FlushStep(s, false), n).file == s.file
  {
    FlusherIdles(FlushStep(s, false), n);
  }

  /** A `stop` whose final open fails ends all the same, and leaves the file as it is. */
  lemma FailedStopIsOver<C>(s: State<C>, loaded: C)
    requires s.caller.FinalSnapshot?
    ensures
      var t := Step(s, Call(loaded, false));
      t.caller.Outside? && t.failed && t.file == s.file && t.current == s.current
  {
  }

  // ---- Starting -----------------------------------------------------------

  /** `start` makes the configuration of a file that is there current, and marks it for
      flushing; without a file it keeps the current one.  Either way it starts the flush
      thread, unless it runs. */
  lemma StartLoadsIff<C>(s: State<C>, loaded: C)
    requires Staged(s) && s.caller.Outside?
    ensures
      var call := Call(loaded, true);
      var first := Step(Step(s, CallStart), call);
      var t := if s.file.Missing? then Step(first, call) else Step(Step(first, call), call);
      && t.caller.Outside? && t.running && !t.flusher.NotRunning? && t.file == s.file
      && t.current == (if s.file.Missing? then s.current else loaded)
      && t.pending == (s.pending || !s.file.Missing?) && t.unmarked == s.unmarked
      && (s.running ==> t.flusher == s.flusher)
  {
  }

  // ---- Stopping -----------------------------------------------------------

  /** Marks, swaps, and steps of the flush thread and of `stop`, with every flush
      succeeding. */
  predicate StopSteps<C>(acts: seq<Action<C>>) {
    forall i :: 0 <= i < |acts| ==>
      acts[i].Swap? || acts[i].Mark? || ((acts[i].Flush? || acts[i].Call?) && acts[i].ok)
  }

  predicate NoSwap<C>(acts: seq<Action<C>>) {
    forall i :: 0 <= i < |acts| ==> !acts[i].Swap?
  }

  /** The `stop` of a running manager, before it has read what it writes last. */
  predicate BeforeSnapshot<C>(s: State<C>) {
    match s.caller
    case StopClear => s.running && !s.flusher.NotRunning?
    case StopExchange(_) => s.running && !s.flusher.NotRunning?
    case StopJoin => !s.running
    case FinalSnapshot => !s.running && s.flusher.NotRunning?
    case _ => false
  }

  /** The same `stop` once it has read `config`, and what the file is at its end. */
  predicate AfterSnapshot<C(==)>(s: State<C>, config: C) {
    && !s.running && s.flusher.NotRunning?
    && match s.caller
       case FinalRename(text) => text == config
       case Outside => s.file == Printed(config)
       case _ => false
  }

  /** The configuration current when `stop` takes its final snapshot, `current` if
      the run ends before. */
  function AtSnapshot<C>(s: State<C>, acts: seq<Action<C>>): C
    decreases |acts|
  {
    if acts == [] || (s.caller.FinalSnapshot? && acts[0].Call?) then s.current
    else AtSnapshot(Step(s, acts[0]), acts[1..])
  }

  lemma {:induction false} AfterSnapshotRun<C>(s: State<C>, config: C, acts: seq<Action<C>>)
    requires AfterSnapshot(s, config) && StopSteps(acts)
    ensures AfterSnapshot(Exec(s, acts), config)
    decreases |acts|
  {
    if acts != [] {
      AfterSnapshotRun(Step(s, acts[0]), config, acts[1..]);
    }
  }

  lemma StoppingStep<C>(s: State<C>, a: Action<C>)
    requires BeforeSnapshot(s) && StopSteps([a])
    ensures var t := Step(s, a);
      if s.caller.FinalSnapshot? && a.Call? then AfterSnapshot(t, s.current) else BeforeSnapshot(t)
  {
    assert [a][0] == a;
  }

  lemma {:induction false} StoppingRun<C>(s: State<C>, acts: seq<Action<C>>)
    requires BeforeSnapshot(s) && StopSteps(acts)
    ensures BeforeSnapshot(Exec(s, acts)) || AfterSnapshot(Exec(s, acts), AtSnapshot(s, acts))
    decreases |acts|
  {
    if acts != [] {
      StoppingStep(s, acts[0]);
      if s.caller.FinalSnapshot? && acts[0].Call? {
        AfterSnapshotRun(Step(s, acts[0]), s.current, acts[1..]);
      } else {
        StoppingRun(Step(s, acts[0]), acts[1..]);
      }
    }
  }

  lemma CallNeverLoads<C>(s: State<C>, loaded: C, ok: bool)
    ensures !CallStep(s, loaded, ok).caller.StartLoad?
  {
  }

  lemma StepKeepsCurrent<C>(s: State<C>, a: Action<C>)
    requires !s.caller.StartLoad? && !a.Swap? && !a.CallStart?
    ensures Step(s, a).current == s.current && !Step(s, a).caller.StartLoad?
  {
    match a
    case Flush(ok) => FlushAppliesNone(s, ok);
    case Call(loaded, ok) =>
      OthersApplyNone(s, loaded, ok);
      CallNeverLoads(s, loaded, ok);
    case _ =>
  }

  lemma {:induction false} NoSwapKeepsCurrent<C>(s: State<C>, acts: seq<Action<C>>)
    requires !s.caller.StartLoad? && StopSteps(acts) && NoSwap(acts)
    ensures Exec(s, acts).current == AtSnapshot(s, acts) == s.current
    decreases |acts|
  {
    if acts != [] {
      StepKeepsCurrent(s, acts[0]);
      NoSwapKeepsCurrent(Step(s, acts[0]), acts[1..]);
    }
  }

  /** However the threads and any number of updates interleave with it, the `stop` of
      a started manager ends with the file holding the configuration that was
      current when it took its final snapshot. */
  lemma StopWritesSnapshot<C>(defaults: C, file: Disk<C>, before: seq<Action<C>>, during: seq<Action<C>>)
    requires
      var s := Exec(Init(defaults, file), before);
      s.running && s.caller.Outside? && StopSteps(during)
    ensures
      var s := Step(Exec(Init(defaults, file), before), CallStop);
      var t := Exec(s, during);
      t.caller.Outside? ==> t.file == Printed(AtSnapshot(s, during)) && !t.running
  {
    ExecIsSound(Init(defaults, file), before);
    StoppingRun(Step(Exec(Init(defaults, file), before), CallStop), during);
  }

  lemma {:induction false} StopOfStoppedRun<C>(s: State<C>, acts: seq<Action<C>>)
    requires !s.running && s.flusher.NotRunning? && StopSteps(acts)
    requires s.caller.StopClear? || s.caller.StopExchange? || s.caller.Outside?
    ensures Exec(s, acts).file == s.file
    decreases |acts|
  {
    if acts != [] {
      StopOfStoppedRun(Step(s, acts[0]), acts[1..]);
    }
  }

  /** A `stop` that no update overlaps brings a file that is out of date up to date
      exactly when the manager was started. */
  lemma StopFlushesIff<C>(defaults: C, file: Disk<C>, before: seq<Action<C>>, during: seq<Action<C>>)
    requires
      var s := Exec(Init(defaults, file), before);
      s.caller.Outside? && s.file != Printed(s.current) && StopSteps(during) && NoSwap(during)
    ensures
      var s := Exec(Init(defaults, file), before);
      var t := Exec(Step(s, CallStop), during);
      t.caller.Outside? ==> (t.file == Printed(s.current) <==> s.running) && t.current == s.current
  {
    var s := Exec(Init(defaults, file), before);
    ExecIsSound(Init(defaults, file), before);
    NoSwapKeepsCurrent(Step(s, CallStop), during);
    if s.running {
      StoppingRun(Step(s, CallStop), during);
    } else {
      StopOfStoppedRun(Step(s, CallStop), during);
    }
  }

  lemma {:induction false} ExecAppend<C>(s: State<C>, acts: seq<Action<C>>, more: seq<Action<C>>)
    ensures Exec(s, acts + more) == Exec(Exec(s, acts), more)
    decreases |acts|
  {
    if acts == [] {
      assert acts + more == more;
    } else {
      assert (acts + more)[1..] == acts[1..] + more;
      ExecAppend(Step(s, acts[0]), acts[1..], more);
    }
  }

  /** The one update that overlaps the `stop` of a started manager reaches the disk
      exactly when it is swapped in before the final snapshot. */
  lemma OverlappingUpdateIff<C>(defaults: C, file: Disk<C>, before: seq<Action<C>>,
                                first: seq<Action<C>>, config: C, rest: seq<Action<C>>)
    requires
      var s := Exec(Init(defaults, file), before);
      && s.running && s.caller.Outside? && config != s.current
      && StopSteps(first) && NoSwap(first) && StopSteps(rest) && NoSwap(rest)
    ensures
      var s := Step(Exec(Init(defaults, file), before), CallStop);
      var t := Exec(Step(Exec(s, first), Swap(config)), rest);
      t.caller.Outside? ==>
        t.current == config && (t.file == Printed(config) <==> BeforeSnapshot(Exec(s, first)))
  {
    ExecIsSound(Init(defaults, file), before);
    var s := Step(Exec(Init(defaults, file), before), CallStop);
    StoppingRun(s, first);
    var mid := Exec(s, first);
    var swapped := Step(mid, Swap(config));
    NoSwapKeepsCurrent(s, first);
    NoSwapKeepsCurrent(swapped, rest);
    if BeforeSnapshot(mid) {
      StoppingRun(swapped, rest);
    } else {
      AfterSnapshotRun(swapped, s.current, rest);
    }
  }

  /** How many steps of its own and of the flush thread `stop` still needs. */
  function StopRank<C>(s: State<C>): nat {
    (match s.flusher
     case NotRunning => 0
     case Wait => 1
     case Rename(_) => 2
     case Snapshot => 3)
    + match s.caller
      case StopClear => 5
      case StopExchange(_) => 4
      case StopJoin => 3
      case FinalSnapshot => 2
      case FinalRename(_) => 1
      case _ => 0
  }

  /** The `stop` of a running manager can always end. */
  lemma {:induction false} StopEnds<C>(s: State<C>) returns (acts: seq<Action<C>>)
    requires BeforeSnapshot(s) || AfterSnapshot(s, s.current)
    ensures StopSteps(acts) && NoSwap(acts) && Exec(s, acts).caller.Outside?
    decreases StopRank(s)
  {
    acts := [];
    if !s.caller.Outside? {
      var a := if s.caller.StopJoin? && !s.flusher.NotRunning? then Flush(true) else Call(s.current, true);
      assert StopRank(Step(s, a)) < StopRank(s);
      var rest := StopEnds(Step(s, a));
      acts := [a] + rest;
      assert acts[1..] == rest;
    }
  }

  // ---- Where updates are lost ---------------------------------------------

  /** Update, `stop` before `start`, `start`: the mark is gone, so nothing is
      ever written although the flush thread runs. */
  lemma StopBeforeStartLosesMark<C>(defaults: C, config: C)
    ensures
      var updated := Step(Step(Init(defaults, Missing), Swap(config)), Mark);
      var stopped := Step(Step(Step(updated, CallStop), Call(config, true)), Call(config, true));
      var s := Step(Step(Step(stopped, CallStart), Call(config, true)), Call(config, true));
      && Quiet(s) && s.running && s.applied && !s.failed && s.takenBack
      && s.current == config && s.file == Missing
      && Step(s, Flush(true)) == s
  {
  }

  /** Start, then `stop` with an update after its final snapshot: the update is
      marked, and nothing is left to write it. */
  lemma LateUpdateStaysInMemory<C>(defaults: C, config: C)
    requires config != defaults
    ensures
      var call := Call(config, true);
      var started := Step(Step(Step(Init(defaults, Missing), CallStart), call), call);
      var stopping := Step(Step(Step(started, CallStop), call), call);
      var snapshot := Step(Step(Step(stopping, Flush(true)), call), call);
      var t := Step(Step(Step(snapshot, Swap(config)), Mark), call);
      && started.running && t.caller.Outside? && t.pending && t.current == config
      && t.file == Printed(defaults) && Step(t, Flush(true)) == t
  {
  }
}
