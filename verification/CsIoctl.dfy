/** One command submission: hardware admission, the parser's reservations and storage, the
    ring, and the reset after a lockup. What the callees answer is arbitrary.

    The contracts of the callees are the protocol: each of them demands the state in which the
    kernel has to call it, so a submission that verifies keeps the order on every path. */
module CsIoctl {

  const EIO: int := 5
  const EAGAIN: int := 11
  const EBUSY: int := 16
  const EINVAL: int := 22
  const EDEADLK: int := 35

  /** What the callees answer. `fence` says whether scheduling left a fence in the buffer,
      `validated` whether the relocations reserved any object, `parserError` is the parser's
      own error flag. */
  datatype Answers = Answers(
    lock: int, parked: bool, accelWorking: bool, inReset: bool,
    init: int, fill: int, relocs: int, validated: bool,
    hasIb: bool, vm: bool, hasConstIb: bool,
    parse: int, parserError: bool, sync: int, schedule: int, fence: bool,
    constParse: int, updatePte: int, reset: int)

  /** The ring took the buffer: what its own path asks for all succeeded. */
  predicate Submitted(a: Answers) {
    && a.hasIb && a.parse == 0 && a.sync == 0 && a.schedule == 0
    && if a.vm then (a.hasConstIb ==> a.constParse == 0) && a.updatePte == 0 else !a.parserError
  }

  /** The submission reaches the parser at all. */
  predicate Starts(a: Answers) {
    a.lock == 0 && !a.parked && a.accelWorking && !a.inReset
  }

  predicate Prepared(a: Answers) {
    Starts(a) && a.init == 0 && a.fill == 0 && a.relocs == 0
  }

  /** The parser's error flag drops a stream whose parse reported no error. */
  predicate Dropped(a: Answers) {
    a.hasIb && !a.vm && a.parse == 0 && a.parserError
  }

  /** Exactly when the ioctl reports success. */
  predicate Succeeds(a: Answers) {
    Prepared(a) && (a.hasIb ==> Submitted(a) || Dropped(a)) && (a.validated ==> Submitted(a) && a.fence)
  }

  /** The result of a chunk on its own path: the first error met. */
  function ChunkResult(a: Answers): int {
    if !a.hasIb then 0
    else if a.vm then
      if a.hasConstIb && a.constParse != 0 then a.constParse
      else if a.parse != 0 then a.parse
      else if a.updatePte != 0 then a.updatePte
      else if a.sync != 0 then a.sync
      else a.schedule
    else if a.parse != 0 || a.parserError then a.parse
    else if a.sync != 0 then a.sync
    else a.schedule
  }

  /** The error a started submission ends with, before a lockup is handled. */
  function StartedResult(a: Answers): int {
    if a.init != 0 then a.init
    else if a.fill != 0 then a.fill
    else if a.relocs != 0 then a.relocs
    else if ChunkResult(a) != 0 then ChunkResult(a)
    else if a.validated && !(Submitted(a) && a.fence) then -EINVAL
    else 0
  }

  /** A detected lockup becomes a reset and a retry, or the reset's own error. */
  function AfterLockup(a: Answers, error: int): int {
    if error != -EDEADLK then error else if a.reset == 0 then -EAGAIN else a.reset
  }

  datatype ParserState = Unstarted | Started | Unreserved | Released

  class Submission {
    const a: Answers
    /** Hardware admission and the VM mutex are held. */
    var admitted: bool
    var vmLocked: bool
    var parser: ParserState
    var reserved: bool
    var fenced: bool
    /** What was done: lock and unlock calls, ring submissions, resets. */
    var locks: nat
    var unlocks: nat
    var scheduled: nat
    var resets: nat
    var published: bool

    constructor (answers: Answers)
      ensures a == answers && Idle() && parser == Unstarted && locks == 0 && unlocks == 0
      ensures scheduled == 0 && resets == 0 && !published && !fenced && !reserved
    {
      a, admitted, vmLocked, parser, reserved, fenced := answers, false, false, Unstarted, false, false;
      locks, unlocks, scheduled, resets, published := 0, 0, 0, 0, false;
    }

    predicate Idle()
      reads this
    {
      !admitted && !vmLocked
    }

    method LockHardware() returns (r: int)
      requires !admitted
      modifies this`admitted, this`locks
      ensures r == a.lock && admitted == (r == 0) && locks == old(locks) + if r == 0 then 1 else 0
    {
      r := a.lock;
      if r == 0 { admitted, locks := true, locks + 1; }
    }

    method UnlockHardware()
      requires admitted && !vmLocked && !reserved
      modifies this`admitted, this`unlocks
      ensures !admitted && unlocks == old(unlocks) + 1
    {
      admitted, unlocks := false, unlocks + 1;
    }

    method ParserInit() returns (r: int)
      requires admitted && parser == Unstarted
      modifies this`parser
      ensures r == a.init && parser == Started
    {
      r, parser := a.init, Started;
    }

    /** Reserves the buffer objects; on failure some may be reserved all the same. */
    method ParserRelocs() returns (r: int)
      requires admitted && parser == Started
      modifies this`reserved
      ensures r == a.relocs && reserved == a.validated
    {
      r, reserved := a.relocs, a.validated;
    }

    /** Publishes the fence to the reserved objects after a success, and drops the
        reservations. The fence is then dereferenced. */
    method ReleaseReservations(error: int)
      requires admitted && !vmLocked && parser == Started
      requires error == 0 && reserved ==> fenced
      modifies this`parser, this`reserved, this`published
      ensures parser == Unreserved && !reserved && published == (old(published) || (error == 0 && old(reserved)))
    {
      published := published || (error == 0 && reserved);
      parser, reserved := Unreserved, false;
    }

    method ReleaseStorage()
      requires !admitted && parser == Unreserved
      modifies this`parser
      ensures parser == Released
    {
      parser := Released;
    }

    method GpuReset() returns (r: int)
      requires Idle()
      modifies this`resets
      ensures r == a.reset && resets == old(resets) + 1
    {
      r, resets := a.reset, resets + 1;
    }

    method HandleLockup(error: int) returns (r: int)
      requires Idle()
      modifies this`resets
      ensures r == (if error != -35 then error else if a.reset == 0 then -11 else a.reset)
      ensures resets == old(resets) + if error == -35 then 1 else 0
    {
      r := error;
      if r == -EDEADLK {
        r := GpuReset();
        if r == 0 { r := -EAGAIN; }
      }
    }

    method UpdatePageTables() returns (r: int)
      requires admitted && vmLocked
      ensures r == a.updatePte
    {
      r := a.updatePte;
    }

    method IbSchedule() returns (r: int)
      requires admitted && parser == Started && (a.vm ==> vmLocked)
      modifies this`scheduled, this`fenced
      ensures r == a.schedule && scheduled == old(scheduled) + (if r == 0 then 1 else 0) && fenced == a.fence
    {
      r, fenced := a.schedule, a.fence;
      if r == 0 { scheduled := scheduled + 1; }
    }

    /** A buffer outside a VM. A parser error flag ends it with the parser's result, which may
        be zero. */
    method IbChunk() returns (r: int)
      requires admitted && parser == Started && scheduled == 0 && !fenced
      modifies this`scheduled, this`fenced
      ensures scheduled == (if !a.vm && Submitted(a) then 1 else 0)
      ensures !a.vm && Submitted(a) ==> fenced == a.fence
      ensures r == if a.vm then 0 else ChunkResult(a)
      ensures r == 0 && !Submitted(a) ==> !fenced
    {
      if !a.hasIb { return 0; }
      if a.vm { return 0; }
      r := a.parse;
      if r != 0 || a.parserError { return; }
      r := a.sync;
      if r != 0 { return; }
      r := IbSchedule();
    }

    /** A buffer inside a VM, under the VM's mutex. */
    method IbVmChunk() returns (r: int)
      requires admitted && !vmLocked && parser == Started
      modifies this`scheduled, this`fenced, this`vmLocked
      ensures !vmLocked
      ensures scheduled == old(scheduled) + if a.vm && Submitted(a) then 1 else 0
      ensures !a.hasIb || !a.vm ==> fenced == old(fenced)
      ensures a.vm && Submitted(a) ==> fenced == a.fence
      ensures r == if a.vm then ChunkResult(a) else 0
    {
      if !a.hasIb { return 0; }
      if !a.vm { return 0; }
      if a.hasConstIb {
        r := a.constParse;
        if r != 0 { return; }
      }
      r := a.parse;
      if r != 0 { return; }
      vmLocked := true;
      r := UpdatePageTables();
      if r == 0 {
        r := a.sync;
        if r == 0 { r := IbSchedule(); }
      }
      vmLocked := false;
    }

    /** The end every started submission goes through. */
    method Finish(error: int) returns (r: int)
      requires admitted && !vmLocked && parser == Started && (error == 0 && reserved ==> fenced)
      modifies this
      ensures Idle() && parser == Released && !reserved && unlocks == old(unlocks) + 1
      ensures locks == old(locks) && scheduled == old(scheduled) && fenced == old(fenced)
      ensures published == (old(published) || (error == 0 && old(reserved)))
      ensures r == (if error != -35 then error else if a.reset == 0 then -11 else a.reset)
      ensures resets == old(resets) + if error == -35 then 1 else 0
    {
      ReleaseReservations(error);
      UnlockHardware();
      ReleaseStorage();
      r := HandleLockup(error);
    }

    /** The ioctl. Admission is released exactly once on every admitted path and never
        otherwise; reservations and storage are released exactly when the parser was started;
        the buffer is submitted to the ring exactly when everything it needs succeeded; and
        success with reserved objects means that the fence reached them. */
    method Ioctl() returns (r: int)
      requires Idle() && parser == Unstarted && locks == 0 && unlocks == 0 && scheduled == 0 && resets == 0
      requires !published && !fenced && !reserved
      modifies this
      ensures Idle() && !reserved
      ensures unlocks == locks == if a.lock == 0 then 1 else 0
      ensures parser == if Starts(a) then Released else Unstarted
      ensures scheduled == if Prepared(a) && Submitted(a) then 1 else 0
      ensures r == 0 <==> Succeeds(a)
      ensures Prepared(a) && ChunkResult(a) == 0 && a.validated && !(Submitted(a) && a.fence) ==> r == -22
      ensures Starts(a) ==> r == AfterLockup(a, StartedResult(a))
      ensures Starts(a) ==> resets == if StartedResult(a) == -EDEADLK then 1 else 0
      ensures a.lock == 0 && !a.parked && a.accelWorking && a.inReset ==>
                r == (if a.reset == 0 then -11 else a.reset) && resets == 1
      ensures published <==> r == 0 && a.validated
      ensures r == 0 && a.validated ==> fenced && scheduled == 1
      ensures r == 0 && a.hasIb && scheduled == 0 <==> Prepared(a) && Dropped(a) && !a.validated
      ensures a.lock != 0 ==> r == a.lock
      ensures a.lock == 0 && a.parked ==> r == -5 && resets == 0
      ensures a.lock == 0 && !a.parked && !a.accelWorking ==> r == -16 && resets == 0
    {
      r := LockHardware();
      if r != 0 { return; }
      if a.parked {
        UnlockHardware();
        return -EIO;
      }
      if !a.accelWorking {
        UnlockHardware();
        return -EBUSY;
      }
      if a.inReset {
        UnlockHardware();
        r := GpuReset();
        if r == 0 { r := -EAGAIN; }
        return;
      }
      r := ParserInit();
      if r != 0 {
        r := Finish(r);
        return;
      }
      r := a.fill;
      if r == 0 { r := ParserRelocs(); }
      if r != 0 {
        r := Finish(r);
        return;
      }
      r := IbChunk();
      if r == 0 {
        r := IbVmChunk();
        if r == 0 && reserved && !fenced { r := -EINVAL; }
      }
      r := Finish(r);
    }
  }
}
