/** One over-the-air update command, from the idle check to the last report. */
module OtaCommand {

  datatype Phase =
    | Idle | Validating | Downloading | Verifying | BackingUp | Applying | Restarting | Confirming
    | Success | Failed

  datatype Step = Validate | Acquire | Download | Verify | Backup | Apply | Restart | Confirm

  /** A step that was run, the phase it was run in, and whether the lock was held. */
  datatype Ran = Ran(step: Step, phase: Phase, locked: bool)

  /** The course of an update in three parts; all but the first are done under the
      lock. */
  const CHECKS := [Ran(Validate, Validating, false), Ran(Acquire, Validating, false)]
  const PREPARATION := [Ran(Download, Downloading, true), Ran(Verify, Verifying, true), Ran(Backup, BackingUp, true)]
  const INSTALLATION := [Ran(Apply, Applying, true), Ran(Restart, Restarting, true), Ran(Confirm, Confirming, true)]
  const COURSE := CHECKS + PREPARATION + INSTALLATION

  /** The steps of `course` up to the first that fails, all of them if none does. */
  predicate UpToFailure(course: seq<Ran>, works: Step -> bool, ran: seq<Ran>) {
    && ran <= course
    && (forall i :: 0 <= i < |ran| - 1 ==> works(ran[i].step))
    && (|ran| < |course| ==> ran != [] && !works(ran[|ran| - 1].step))
  }

  predicate AllWork(course: seq<Ran>, works: Step -> bool) {
    forall i :: 0 <= i < |course| ==> works(course[i].step)
  }

  lemma FailedPart(first: seq<Ran>, second: seq<Ran>, works: Step -> bool, ran: seq<Ran>)
    requires UpToFailure(first, works, ran) && ran != [] && !works(ran[|ran| - 1].step)
    ensures UpToFailure(first + second, works, ran) && !AllWork(first + second, works)
  {
    assert (first + second)[|ran| - 1] == ran[|ran| - 1];
  }

  lemma NextPart(first: seq<Ran>, second: seq<Ran>, works: Step -> bool, ran: seq<Ran>)
    requires AllWork(first, works) && UpToFailure(second, works, ran) && ran != []
    ensures UpToFailure(first + second, works, first + ran)
    ensures AllWork(first + second, works) <==> AllWork(second, works)
  {
    var all := first + ran;
    assert all[|all| - 1] == ran[|ran| - 1];
    forall i | 0 <= i < |all| - 1 ensures works(all[i].step) {
      if i >= |first| {
        assert all[i] == ran[i - |first|];
      }
    }
    forall i | 0 <= i < |second| ensures (first + second)[|first| + i] == second[i] {
    }
  }

  class OtaManager {
    var phase: Phase
    var locked: bool

    constructor ()
      ensures phase == Idle && !locked
    {
      phase, locked := Idle, false;
    }

    /** `on_ota_command`.  `complete` is whether the command names a version, a URL
        and a checksum; `works(s)` is whether step `s` succeeds.  `ran` lists the
        steps that were run, `busy` reports a command that was ignored. */
    method OnOtaCommand(complete: bool, works: Step -> bool) returns (ran: seq<Ran>, busy: bool)
      requires locked ==> phase != Idle
      modifies this
      ensures busy <==> old(phase) != Idle
      ensures busy ==> phase == old(phase) && locked == old(locked) && ran == []
      ensures !busy ==> !locked
      ensures !busy && !complete ==> phase == Failed && ran == []
      ensures !busy && complete ==>
        && ran != [] && UpToFailure(COURSE, works, ran)
        && phase == if AllWork(COURSE, works) then Success else Failed
    {
      ran, busy := [], phase != Idle;
      if busy {
        return;
      }
      phase := Validating;
      if !complete {
        phase := Failed;
        return;
      }
      var rest := PREPARATION + INSTALLATION;
      assert COURSE == CHECKS + rest;
      ran := ran + [Ran(Validate, phase, locked)];
      if !works(Validate) {
        phase := Failed;
        FailedPart(CHECKS, rest, works, ran);
        return;
      }
      ran := ran + [Ran(Acquire, phase, locked)];
      if !works(Acquire) {
        phase := Failed;
        FailedPart(CHECKS, rest, works, ran);
        return;
      }
      locked := true;
      var prepared := Prepare(works);
      if phase == Failed {
        FailedPart(PREPARATION, INSTALLATION, works, prepared);
        NextPart(CHECKS, rest, works, prepared);
        ran := ran + prepared;
        return;
      }
      var installed := Install(works);
      NextPart(PREPARATION, INSTALLATION, works, installed);
      NextPart(CHECKS, rest, works, prepared + installed);
      ran := ran + (prepared + installed);
    }

    /** Download, checksum and backup. */
    method Prepare(works: Step -> bool) returns (ran: seq<Ran>)
      requires locked
      modifies this
      ensures ran != [] && UpToFailure(PREPARATION, works, ran)
      ensures if AllWork(PREPARATION, works) then ran == PREPARATION && locked && phase != Failed
              else !works(ran[|ran| - 1].step) && !locked && phase == Failed
    {
      ran := [];
      assert PREPARATION[0].step == Download && PREPARATION[1].step == Verify && PREPARATION[2].step == Backup;
      phase := Downloading;
      ran := ran + [Ran(Download, phase, locked)];
      if !works(Download) {
        phase := Failed;
        locked := false;
        return;
      }
      phase := Verifying;
      ran := ran + [Ran(Verify, phase, locked)];
      if !works(Verify) {
        phase := Failed;
        locked := false;
        return;
      }
      phase := BackingUp;
      ran := ran + [Ran(Backup, phase, locked)];
      if !works(Backup) {
        phase := Failed;
        locked := false;
        return;
      }
    }

    /** Replacement, restart and health check, and the release of the lock. */
    method Install(works: Step -> bool) returns (ran: seq<Ran>)
      requires locked
      modifies this
      ensures ran != [] && UpToFailure(INSTALLATION, works, ran)
      ensures !locked && phase == if AllWork(INSTALLATION, works) then Success else Failed
    {
      ran := [];
      assert INSTALLATION[0].step == Apply && INSTALLATION[1].step == Restart && INSTALLATION[2].step == Confirm;
      phase := Applying;
      ran := ran + [Ran(Apply, phase, locked)];
      if !works(Apply) {
        phase := Failed;
        locked := false;
        return;
      }
      phase := Restarting;
      ran := ran + [Ran(Restart, phase, locked)];
      if !works(Restart) {
        phase := Failed;
        locked := false;
        return;
      }
      phase := Confirming;
      ran := ran + [Ran(Confirm, phase, locked)];
      if !works(Confirm) {
        phase := Failed;
        locked := false;
        return;
      }
      phase := Success;
      locked := false;
    }
  }
}
