/** Lock counts of the two memory blocks behind a graphics buffer.

    Every buffer has a shared block describing it and, usually, a plane block holding pixels.  The
    allocator and the mapper lock and unlock both blocks on many paths, some of which fail half
    way.  `Buffer` makes those calls in the source's order on plain counters; `Expected` says what
    the counters must be from nothing but the list of calls made so far, by any processes. */
module PlaneLocks {

  /** Result of locking a memory block.  A block that reports NotSupported still counts the lock,
      and the caller gives it back. */
  datatype LockResult = Success | NotSupported | Failed

  datatype Status = Done | Invalid | NoMemory | Busy | Fault

  datatype Format = Yv12 | FlexYuv | Other

  /** What each call amounted to. */
  datatype Event =
    | Allocated | Freed
    /** a free that could not map the shared block: it reports success and unlocks nothing */
    | FreeKeptLocks
    | Registered | Unregistered
    | Locked | Unlocked
    /** a CPU lock that failed on the video frame, after it had locked the plane */
    | HalfLocked
    /** a lock of the wrong kind for the format */
    | Refused
    /** the clearing of a new plane stopped after one of its two locks */
    | ClearKeptOffset | ClearKeptLock
    | NoEffect

  datatype Counts = Counts(plane: int, offset: int, shared: int, sharedOffset: int)

  /** The calls made so far. */
  datatype History = Start | Then(past: History, call: Event)

  ghost function Number(log: History, e: Event): nat {
    if log.Start? then 0 else Number(log.past, e) + if log.call == e then 1 else 0
  }

  /** The counts after a list of calls.  `locked` is the locked management mode; `present` says the
      buffer has a plane. */
  ghost function Expected(locked: bool, present: bool, log: History): Counts {
    var alive := Number(log, Allocated) - Number(log, Freed);
    var mapped := Number(log, Registered) - Number(log, Unregistered);
    var clients := Number(log, Locked) + Number(log, HalfLocked) - Number(log, Unlocked);
    Counts(
      if !present then 0 else (if locked then alive + mapped else 0) + clients + Number(log, ClearKeptLock),
      if !present then 0 else (if locked then alive else clients) + Number(log, ClearKeptOffset),
      Number(log, Refused),
      0)
  }

  /** What one more call adds to the counts. */
  ghost function Delta(locked: bool, present: bool, e: Event): Counts {
    if e.Refused? then Counts(0, 0, 1, 0)
    else if !present then Counts(0, 0, 0, 0)
    else match e
      case Locked | HalfLocked => Counts(1, if locked then 0 else 1, 0, 0)
      case Unlocked => Counts(-1, if locked then 0 else -1, 0, 0)
      case Allocated => if locked then Counts(1, 1, 0, 0) else Counts(0, 0, 0, 0)
      case Freed => if locked then Counts(-1, -1, 0, 0) else Counts(0, 0, 0, 0)
      case Registered => Counts(if locked then 1 else 0, 0, 0, 0)
      case Unregistered => Counts(if locked then -1 else 0, 0, 0, 0)
      case ClearKeptLock => Counts(1, 0, 0, 0)
      case ClearKeptOffset => Counts(0, 1, 0, 0)
      case _ => Counts(0, 0, 0, 0)
  }

  /** The counts after a list of calls, one call at a time. */
  ghost function Tally(locked: bool, present: bool, log: History): Counts {
    if log.Start? then Counts(0, 0, 0, 0)
    else
      var c, d := Tally(locked, present, log.past), Delta(locked, present, log.call);
      Counts(c.plane + d.plane, c.offset + d.offset, c.shared + d.shared, c.sharedOffset + d.sharedOffset)
  }

  /** What each call does adds up to the law stated over the whole history. */
  lemma {:induction false} TallyIsExpected(locked: bool, present: bool, log: History)
    ensures Tally(locked, present, log) == Expected(locked, present, log)
  {
    if log.Then? { TallyIsExpected(locked, present, log.past); }
  }

  /** Everything taken is given back, as far as the calls report: the callers' half of the bargain. */
  ghost predicate Balanced(log: History) {
    && Number(log, Allocated) == Number(log, Freed) + Number(log, FreeKeptLocks)
    && Number(log, Registered) == Number(log, Unregistered)
    && Number(log, Locked) == Number(log, Unlocked)
  }

  /** A call that leaves a lock behind; a free can only where allocation took locks. */
  predicate Stray(locked: bool, e: Event) {
    e.HalfLocked? || e.Refused? || e.ClearKeptLock? || e.ClearKeptOffset? || (locked && e.FreeKeptLocks?)
  }

  ghost predicate Clean(locked: bool, log: History) {
    log.Then? ==> !Stray(locked, log.call) && Clean(locked, log.past)
  }

  lemma {:induction false} CleanCounts(locked: bool, log: History)
    ensures Clean(locked, log) <==>
              Number(log, HalfLocked) + Number(log, Refused) + Number(log, ClearKeptLock) + Number(log, ClearKeptOffset)
              + (if locked then Number(log, FreeKeptLocks) else 0) == 0
  {
    if log.Then? { CleanCounts(locked, log.past); }
  }

  /** A balanced history leaves every count at zero exactly if no call stopped half way: the leaks
      are the whole difference, whatever the order of the calls. */
  lemma BalancedEndsAtZeroIff(locked: bool, log: History)
    requires Balanced(log)
    ensures Tally(locked, true, log) == Counts(0, 0, 0, 0) <==> Clean(locked, log)
  {
    TallyIsExpected(locked, true, log);
    CleanCounts(locked, log);
  }

  /** The callers have taken at least what they gave back. */
  ghost predicate TakenFirst(log: History) {
    && Number(log, Freed) + Number(log, FreeKeptLocks) <= Number(log, Allocated)
    && Number(log, Unregistered) <= Number(log, Registered)
    && Number(log, Unlocked) <= Number(log, Locked)
  }

  /** Then no count is below zero, and a plane stays locked while any client holds it, even after
      another process has freed or unregistered the buffer. */
  lemma HeldPlaneStaysLocked(locked: bool, log: History)
    requires TakenFirst(log)
    ensures Tally(locked, true, log).plane >= Number(log, Locked) - Number(log, Unlocked) >= 0
    ensures Tally(locked, true, log).offset >= 0 && Tally(locked, true, log).shared >= 0
    ensures !locked ==> Tally(locked, true, log).offset >= Number(log, Locked) - Number(log, Unlocked)
  {
    TallyIsExpected(locked, true, log);
  }

  /** What the environment answers to each call the allocator makes. */
  datatype AllocEnv = AllocEnv(sharedMemory: bool, mapping: LockResult, glSuitable: bool, wantsPlane: bool,
                               planeSized: bool, planeMemory: bool, clearOffset: bool, clearLock: LockResult)

  /** What the environment answers to each call a CPU lock makes. */
  datatype LockEnv = LockEnv(validHandle: bool, mapping: LockResult, frameMap: LockResult, frameBusy: bool,
                             striped: bool, swWrite: bool, swRead: bool, complete: bool, destriped: bool,
                             releaseMap: LockResult) {

    /** The video frame can be had and holds, or can be given, pixels the caller may use. */
    predicate FrameUsable() {
      && frameMap.Success? && !frameBusy
      && (striped ==> !swWrite && (swRead && !complete ==> destriped))
    }
  }

  class Buffer {
    const locked: bool
    const format: Format
    var present: bool
    var plane: int
    var offset: int
    var shared: int
    var sharedOffset: int
    ghost var log: History

    ghost predicate Valid()
      reads this
    {
      Counts(plane, offset, shared, sharedOffset) == Tally(locked, present, log)
    }

    constructor (locked: bool, format: Format)
      ensures Valid() && log == Start && !present && this.locked == locked && this.format == format
    {
      this.locked, this.format := locked, format;
      present, plane, offset, shared, sharedOffset, log := false, 0, 0, 0, 0, Start;
    }

    ghost method Note(e: Event)
      modifies this`log
      ensures log == Then(old(log), e)
    {
      log := Then(log, e);
    }

    /** Locks the shared block and gives the lock back at once where it did not succeed. */
    method MapShared(result: LockResult) returns (mapped: bool)
      modifies this`shared
      ensures mapped == result.Success? && shared == old(shared) + if mapped then 1 else 0
    {
      if !result.Failed? { shared := shared + 1; }
      if result.NotSupported? { shared := shared - 1; }
      mapped := result.Success?;
    }

    /** The log line of every call brackets an offset lock on the shared block. */
    method LogCall(logging: bool)
      modifies this`sharedOffset
      ensures sharedOffset == old(sharedOffset)
    {
      if logging {
        sharedOffset := sharedOffset + 1;
        sharedOffset := sharedOffset - 1;
      }
    }

    method Clear(offsetOk: bool, result: LockResult)
      requires present && Counts(plane, offset, shared - 1, sharedOffset) == Tally(locked, present, log)
      modifies this`plane, this`offset, this`log
      ensures Counts(plane, offset, shared - 1, sharedOffset) == Tally(locked, present, log)
      ensures log == if offsetOk && !result.Success? then Then(old(log), ClearKeptOffset)
                     else if !offsetOk && result.Success? then Then(old(log), ClearKeptLock) else old(log)
    {
      if offsetOk { offset := offset + 1; }
      if !result.Failed? { plane := plane + 1; }
      if !result.Success? || !offsetOk {
        if result.NotSupported? { plane := plane - 1; }
        if offsetOk { Note(ClearKeptOffset); } else if result.Success? { Note(ClearKeptLock); }
        return;
      }
      offset := offset - 1;
      plane := plane - 1;
    }

    method Alloc(env: AllocEnv, logging: bool) returns (status: Status)
      requires Valid() && log == Start && !present
      modifies this`present, this`plane, this`offset, this`shared, this`sharedOffset, this`log
      ensures Valid()
      ensures status.Done? <==>
                && env.sharedMemory && env.mapping.Success? && env.glSuitable
                && (env.wantsPlane ==> env.planeSized && env.planeMemory)
      ensures status.Done? ==> present == env.wantsPlane && Number(log, Allocated) == 1
      ensures !status.Done? ==> log == Then(Start, NoEffect) && !present
      ensures status.Done? && env.clearOffset && env.clearLock.Success? ==> log == Then(Start, Allocated)
    {
      if !env.sharedMemory { Note(NoEffect); return NoMemory; }
      var mapped := MapShared(env.mapping);
      if !mapped { Note(NoEffect); return NoMemory; }
      if !env.glSuitable {
        shared := shared - 1;
        Note(NoEffect);
        return Invalid;
      }
      if env.wantsPlane && env.planeSized {
        if !env.planeMemory {
          shared := shared - 1;
          Note(NoEffect);
          return NoMemory;
        }
        present := true;
      }
      if locked && present {
        offset := offset + 1;
        plane := plane + 1;
      }
      LogCall(logging);
      if env.wantsPlane && !present {
        shared := shared - 1;
        Note(NoEffect);
        return NoMemory;
      }
      Note(Allocated);
      if present { Clear(env.clearOffset, env.clearLock); }
      shared := shared - 1;
      return Done;
    }

    method Free(mapping: LockResult, logging: bool) returns (status: Status)
      requires Valid()
      modifies this`plane, this`offset, this`shared, this`sharedOffset, this`log
      ensures Valid() && status.Done?
      ensures log == Then(old(log), if mapping.Success? then Freed else FreeKeptLocks)
    {
      var mapped := MapShared(mapping);
      if mapped {
        LogCall(logging);
        if locked && present {
          offset := offset - 1;
          plane := plane - 1;
        }
        shared := shared - 1;
      }
      Note(if mapped then Freed else FreeKeptLocks);
      return Done;
    }

    method Register(validHandle: bool, mapping: LockResult, logging: bool) returns (status: Status)
      requires Valid()
      modifies this`plane, this`shared, this`sharedOffset, this`log
      ensures Valid()
      ensures status.Done? <==> validHandle && mapping.Success?
      ensures log == Then(old(log), if status.Done? then Registered else NoEffect)
    {
      if !validHandle { Note(NoEffect); return Invalid; }
      var mapped := MapShared(mapping);
      if !mapped { Note(NoEffect); return Invalid; }
      if locked && present { plane := plane + 1; }
      LogCall(logging);
      shared := shared - 1;
      Note(Registered);
      return Done;
    }

    method Unregister(validHandle: bool, mapping: LockResult, logging: bool) returns (status: Status)
      requires Valid()
      modifies this`plane, this`shared, this`sharedOffset, this`log
      ensures Valid()
      ensures status.Done? <==> validHandle && mapping.Success?
      ensures log == Then(old(log), if status.Done? then Unregistered else NoEffect)
    {
      if !validHandle { Note(NoEffect); return Invalid; }
      var mapped := MapShared(mapping);
      if !mapped { Note(NoEffect); return Invalid; }
      LogCall(logging);
      if locked && present { plane := plane - 1; }
      shared := shared - 1;
      Note(Unregistered);
      return Done;
    }

    /** lock_video_frame and unlock_video_frame map the shared block once more while they work. */
    method TakeFrame(mapping: LockResult, busy: bool) returns (status: Status)
      modifies this`shared
      ensures shared == old(shared)
      ensures status == if !mapping.Success? then Invalid else if busy then Busy else Done
    {
      var mapped := MapShared(mapping);
      if !mapped { return Invalid; }
      status := if busy then Busy else Done;
      shared := shared - 1;
    }

    method GiveFrame(mapping: LockResult)
      modifies this`shared
      ensures shared == old(shared)
    {
      var mapped := MapShared(mapping);
      if mapped { shared := shared - 1; }
    }

    /** The part of a lock that deals with a YV12 frame. */
    method UseFrame(env: LockEnv) returns (status: Status)
      modifies this`shared
      ensures shared == old(shared)
      ensures status.Done? <==> env.FrameUsable()
    {
      status := TakeFrame(env.frameMap, env.frameBusy);
      if !status.Done? { return; }
      if env.striped {
        if env.swWrite {
          GiveFrame(env.releaseMap);
          return Invalid;
        }
        if env.swRead && !env.complete && !env.destriped {
          GiveFrame(env.releaseMap);
          return Invalid;
        }
      }
      GiveFrame(env.releaseMap);
    }

    method LockPlane()
      modifies this`plane, this`offset
      ensures plane == old(plane) + if present then 1 else 0
      ensures offset == old(offset) + if present && !locked then 1 else 0
    {
      if present {
        plane := plane + 1;
        if !locked { offset := offset + 1; }
      }
    }

    /** The plain lock refuses the flexible format, the flexible one refuses everything but YUV. */
    predicate WrongKind(flexible: bool) {
      if flexible then format.Other? else format.FlexYuv?
    }

    /** What a lock call amounts to. */
    function LockOutcome(flexible: bool, env: LockEnv): Event {
      if !env.validHandle || !env.mapping.Success? then NoEffect
      else if WrongKind(flexible) then Refused
      else if format.Yv12? && !env.FrameUsable() then HalfLocked
      else Locked
    }

    /** gralloc_lock when `flexible` is false, gralloc_lock_ycbcr when it is true. */
    method Lock(flexible: bool, env: LockEnv, logging: bool) returns (status: Status)
      requires Valid()
      modifies this`plane, this`offset, this`shared, this`sharedOffset, this`log
      ensures Valid()
      ensures log == Then(old(log), LockOutcome(flexible, env))
      ensures status.Done? <==> LockOutcome(flexible, env) == Locked
    {
      if !env.validHandle { Note(NoEffect); return Invalid; }
      var mapped := MapShared(env.mapping);
      if !mapped { Note(NoEffect); return Invalid; }
      if WrongKind(flexible) {
        Note(Refused);
        return Invalid;
      }
      status := LockMapped(env, logging);
    }

    /** The rest of a lock, with the shared block mapped. */
    method LockMapped(env: LockEnv, logging: bool) returns (status: Status)
      requires Counts(plane, offset, shared - 1, sharedOffset) == Tally(locked, present, log)
      modifies this`plane, this`offset, this`shared, this`sharedOffset, this`log
      ensures Valid() && log == Then(old(log), if status.Done? then Locked else HalfLocked)
      ensures status.Done? <==> !format.Yv12? || env.FrameUsable()
    {
      LockPlane();
      status := Done;
      if format.Yv12? { status := UseFrame(env); }
      LogCall(logging);
      shared := shared - 1;
      if status.Done? { Note(Locked); } else { Note(HalfLocked); }
    }

    /** An unlock that cannot map the shared block goes on to read it through a null pointer. */
    method Unlock(validHandle: bool, mapping: LockResult, swWrite: bool, logging: bool) returns (status: Status)
      requires Valid()
      modifies this`plane, this`offset, this`shared, this`sharedOffset, this`log
      ensures Valid()
      ensures status.Fault? <==> validHandle && !mapping.Success?
      ensures status.Done? <==> validHandle && mapping.Success? && (swWrite ==> present)
      ensures log == Then(old(log), if status.Done? then Unlocked else NoEffect)
    {
      if !validHandle { Note(NoEffect); return Invalid; }
      var mapped := MapShared(mapping);
      if !mapped { Note(NoEffect); return Fault; }
      if swWrite {
        if !present {
          shared := shared - 1;
          Note(NoEffect);
          return Invalid;
        }
        plane := plane + 1;
        plane := plane - 1;
      }
      LogCall(logging);
      if present {
        plane := plane - 1;
        if !locked { offset := offset - 1; }
      }
      shared := shared - 1;
      Note(Unlocked);
      return Done;
    }
  }

  /** The counts of a buffer follow from the calls made on it, by the law above. */
  lemma CountsFollowHistory(b: Buffer)
    requires b.Valid()
    ensures Counts(b.plane, b.offset, b.shared, b.sharedOffset) == Expected(b.locked, b.present, b.log)
  {
    TallyIsExpected(b.locked, b.present, b.log);
  }

  /** A lock that fails on the video frame must not be unlocked by its caller, and nothing else
      unlocks it: the plane stays locked after everything is given back. */
  method HalfLockLeaks(busy: LockEnv) returns (b: Buffer)
    requires busy.validHandle && busy.mapping.Success? && busy.frameMap.Success? && busy.frameBusy
    ensures Balanced(b.log) && b.plane == 1
  {
    b := new Buffer(true, Yv12);
    var s := b.Alloc(AllocEnv(true, Success, true, true, true, true, true, Success), false);
    s := b.Lock(false, busy, false);
    s := b.Free(Success, false);
    assert b.log == Then(Then(Then(Start, Allocated), HalfLocked), Freed);
  }

  /** So does a free that cannot map the shared block, though every call reports success. */
  method FailedFreeLeaks() returns (b: Buffer, freed: Status)
    ensures freed.Done? && Balanced(b.log) && b.plane == 1 && b.offset == 1
  {
    b := new Buffer(true, Other);
    var s := b.Alloc(AllocEnv(true, Success, true, true, true, true, true, Success), false);
    freed := b.Free(Failed, false);
    assert b.log == Then(Then(Start, Allocated), FreeKeptLocks);
  }
}
