/**
 * The shared VPU record (`semaphore_t`) and the inline wrappers that bracket
 * every hardware command: LockVpu waits on the semaphore and, once it holds
 * it, switches the VPU clock on; UnlockVpu posts the semaphore and then
 * switches the clock off.  The semaphore primitives and the clock-gate
 * register write are outside this model; their effects are recorded, in
 * order, in `effects`, and the outcome of the wait is supplied by the caller.
 */
module VpuLock {

  /** MAX_NUM_INSTANCE: the number of codec instances the shared pool holds. */
  const MaxNumInstance: nat := 4

  /** The scalar fields of a pool slot (`CodecInst`); the session unions are not modelled. */
  datatype CodecInst = CodecInst(instIndex: int, inUse: bool, codecMode: int)

  datatype Option<T> = None | Some(value: T)

  /** An externally visible effect of the wrappers, in the order they happen. */
  datatype Effect =
    | SemaphoreWait(acquired: bool)   // semaphore_wait returned `acquired`
    | SemaphorePost                   // semaphore_post
    | ClockGateSet(on: int)           // IOClkGateSet(on)

  /** The process-shared record, with the clock gate it controls. */
  class Semaphore {
    var isInitialized: bool
    /** The shared instance table, MAX_NUM_INSTANCE slots in place. */
    const codecInstPool: array<CodecInst>
    /** Index in the pool of the instance whose command is in flight, if any. */
    var pendingInst: Option<nat>
    /** Whether this caller holds the semaphore's lock. */
    var locked: bool
    /** The value last written to the VPU clock gate. */
    var clockGate: int
    /** Every semaphore operation and clock-gate write so far, oldest first. */
    var effects: seq<Effect>

    /**
     * The pool has its fixed capacity; between this caller's calls the clock
     * runs exactly while the lock is held (UnlockVpu breaks this for the
     * moment between its post and its clock-gate write).
     */
    ghost predicate Valid()
      reads this
    {
      codecInstPool.Length == MaxNumInstance &&
      (pendingInst.Some? ==> pendingInst.value < MaxNumInstance) &&
      clockGate == (if locked then 1 else 0)
    }

    /** A record over the given pool contents, unlocked, with the clock off. */
    constructor (initialized: bool, pool: seq<CodecInst>)
      requires |pool| == MaxNumInstance
      ensures Valid()
      ensures isInitialized == initialized && codecInstPool[..] == pool
      ensures pendingInst == None && !locked && clockGate == 0 && effects == []
      ensures fresh(codecInstPool)
    {
      isInitialized := initialized;
      codecInstPool := new CodecInst[MaxNumInstance](i requires 0 <= i < MaxNumInstance => pool[i]);
      pendingInst := None;
      locked := false;
      clockGate := 0;
      effects := [];
    }

    /** semaphore_wait, whose outcome the environment decides: the lock is taken exactly when it succeeds. */
    method Wait(outcome: bool) returns (acquired: bool)
      modifies this`locked, this`effects
      ensures acquired == outcome
      ensures locked == (old(locked) || outcome)
      ensures effects == old(effects) + [SemaphoreWait(outcome)]
    {
      acquired := outcome;
      if acquired {
        locked := true;
      }
      effects := effects + [SemaphoreWait(outcome)];
    }

    /** semaphore_post: the lock is released. */
    method Post()
      modifies this`locked, this`effects
      ensures !locked
      ensures effects == old(effects) + [SemaphorePost]
    {
      locked := false;
      effects := effects + [SemaphorePost];
    }

    /** IOClkGateSet: the clock gate takes the value written. */
    method SetClockGate(on: int)
      modifies this`clockGate, this`effects
      ensures clockGate == on
      ensures effects == old(effects) + [ClockGateSet(on)]
    {
      clockGate := on;
      effects := effects + [ClockGateSet(on)];
    }

    /**
     * LockVpu: when the wait fails, report false and leave the clock gate
     * alone; when it succeeds, switch the clock on and report true.
     */
    method LockVpu(waitOutcome: bool) returns (ok: bool)
      requires Valid()
      modifies this`locked, this`clockGate, this`effects
      ensures Valid()
      ensures ok == waitOutcome
      ensures ok ==> (locked && clockGate == 1 &&
                      effects == old(effects) + [SemaphoreWait(true), ClockGateSet(1)])
      ensures !ok ==> (locked == old(locked) && clockGate == old(clockGate) &&
                       effects == old(effects) + [SemaphoreWait(false)])
    {
      var acquired := Wait(waitOutcome);
      if !acquired {
        return false;
      }
      SetClockGate(1);
      return true;
    }

    /** UnlockVpu: post the semaphore first, then switch the clock off. */
    method UnlockVpu()
      requires Valid()
      modifies this`locked, this`clockGate, this`effects
      ensures Valid()
      ensures !locked && clockGate == 0
      ensures effects == old(effects) + [SemaphorePost, ClockGateSet(0)]
    {
      Post();
      SetClockGate(0);
    }
  }

  /**
   * A caller's critical section: after a successful LockVpu and the
   * matching UnlockVpu the clock is off again, and the effects came in the
   * order wait, clock on, post, clock off.  A failed LockVpu leaves nothing
   * to undo.  Neither touches the pool or the pending-instance marker.
   */
  method LockedSection(s: Semaphore, waitOutcome: bool) returns (ran: bool)
    requires s.Valid()
    modifies s`locked, s`clockGate, s`effects
    ensures s.Valid() && ran == waitOutcome
    ensures ran ==> (!s.locked && s.clockGate == 0 &&
                     s.effects == old(s.effects) + [SemaphoreWait(true), ClockGateSet(1), SemaphorePost, ClockGateSet(0)])
    ensures !ran ==> s.effects == old(s.effects) + [SemaphoreWait(false)] && s.clockGate == old(s.clockGate)
    ensures s.codecInstPool[..] == old(s.codecInstPool[..]) && s.pendingInst == old(s.pendingInst)
  {
    ran := s.LockVpu(waitOutcome);
    if ran {
      s.UnlockVpu();
    }
  }
}
