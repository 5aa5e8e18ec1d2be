/**
 * The state of one pipe (struct goldfish_pipe) and the changes the
 * interrupt bottom half and the DMA lock operations make to it.
 *
 * A pipe is kept in the device's pipe table at the index equal to its id,
 * so its links in the signalled list are ids (NIL for none).
 */
module PipeState {
  import opened PipeAbi
  import opened Wrappers
  import opened DmaRegion

  /**
   * flags: the set bits of the pipe's flags word (bit numbers), which
   * the driver only touches through set_bit, clear_bit, test_bit and one
   * plain assignment; signalledFlags: events the host reported that the
   * bottom half has not yet delivered (bit numbers of the event word); prev/next: links in the signalled
   * list; closing: the pipe is being released; dma: its DMA context, if any.
   */
  datatype Pipe = Pipe(flags: set<nat>, signalledFlags: set<nat>, prev: int, next: int, closing: bool, dma: Option<Dma>)

  /** A pipe as goldfish_pipe_open creates it (kzalloc'd: every field zero, no DMA context). */
  function NewPipe(): (p: Pipe)
    ensures p.flags == {} && p.signalledFlags == {} && p.prev == NIL && p.next == NIL
    ensures !p.closing && p.dma.None?
  {
    Pipe({}, {}, NIL, NIL, false, None)
  }

  /**
   * goldfish_pipe_dma_clear_lock: unless the pipe is closing or has no DMA
   * context, the wait-for-unlock bit is cleared and the region unlocked;
   * nothing else changes.
   */
  function DmaClearLock(p: Pipe): (q: Pipe)
    ensures !p.closing && p.dma.Some? ==>
              BIT_WAKE_ON_UNLOCK_DMA !in q.flags && q.dma == Some(p.dma.value.(locked := false))
    ensures p.closing || p.dma.None? ==> q == p
    ensures q.flags - {BIT_WAKE_ON_UNLOCK_DMA} == p.flags - {BIT_WAKE_ON_UNLOCK_DMA}
    ensures q.(flags := p.flags, dma := p.dma) == p
  {
    if !p.closing && p.dma.Some? then
      p.(flags := p.flags - {BIT_WAKE_ON_UNLOCK_DMA}, dma := Some(p.dma.value.(locked := false)))
    else p
  }

  /** The wake bits the bottom half clears one by one. */
  const WAKE_BITS: set<nat> := {BIT_WAKE_ON_WRITE, BIT_WAKE_ON_READ, BIT_WAKE_ON_UNLOCK_DMA}

  /**
   * The bottom half's update of a popped pipe for the events `wakes`: a
   * close by the host replaces the flags by exactly the closed bit;
   * otherwise each reported event clears its own wake bit (a DMA unlock
   * only through DmaClearLock) and every other bit is kept.
   */
  function WakePipe(p: Pipe, wakes: set<nat>): (q: Pipe)
    ensures WAKE_CLOSED_BIT in wakes ==> q == p.(flags := {BIT_CLOSED_ON_HOST})
    ensures WAKE_CLOSED_BIT !in wakes ==>
              && q.(flags := p.flags, dma := p.dma) == p
              && q.flags - WAKE_BITS == p.flags - WAKE_BITS
              && (BIT_WAKE_ON_READ in q.flags <==> BIT_WAKE_ON_READ in p.flags && WAKE_READ_BIT !in wakes)
              && (BIT_WAKE_ON_WRITE in q.flags <==> BIT_WAKE_ON_WRITE in p.flags && WAKE_WRITE_BIT !in wakes)
              && (BIT_WAKE_ON_UNLOCK_DMA in q.flags <==>
                    BIT_WAKE_ON_UNLOCK_DMA in p.flags
                    && !(WAKE_UNLOCK_DMA_BIT in wakes && !p.closing && p.dma.Some?))
              && q.dma == (if WAKE_UNLOCK_DMA_BIT in wakes && !p.closing && p.dma.Some?
                           then Some(p.dma.value.(locked := false)) else p.dma)
  {
    if WAKE_CLOSED_BIT in wakes then p.(flags := {BIT_CLOSED_ON_HOST})
    else
      var p1 := if WAKE_UNLOCK_DMA_BIT in wakes then DmaClearLock(p) else p;
      var p2 := if WAKE_READ_BIT in wakes then p1.(flags := p1.flags - {BIT_WAKE_ON_READ}) else p1;
      if WAKE_WRITE_BIT in wakes then p2.(flags := p2.flags - {BIT_WAKE_ON_WRITE}) else p2
  }

  /** Delivering the same events twice is delivering them once. */
  lemma WakePipeIdempotent(p: Pipe, wakes: set<nat>)
    ensures WakePipe(WakePipe(p, wakes), wakes) == WakePipe(p, wakes)
  {
  }

  /** What a DMA lock operation leaves behind and returns. */
  datatype Acquired = Acquired(pipe: Pipe, ret: int)

  /**
   * The outcome of waiting for a locked region, common to both versions
   * of the acquire: the caller has set the wait-for-unlock bit; an
   * interrupted wait returns -ERESTARTSYS with the bit still set and the
   * region still locked; a close by the host meanwhile leaves exactly the
   * closed bit and returns -EIO.
   */
  predicate WaitOutcome(p: Pipe, w: Wait, r: Acquired)
    requires p.dma.Some?
  {
    && (w == WaitInterrupted ==>
          r == Acquired(p.(flags := p.flags + {BIT_WAKE_ON_UNLOCK_DMA}), -ERESTARTSYS))
    && (w == WaitClosed ==>
          r == Acquired(p.(flags := {BIT_CLOSED_ON_HOST}), -EIO))
    && (w == Woken ==>
          && BIT_WAKE_ON_UNLOCK_DMA !in r.pipe.flags
          && r.pipe.flags - {BIT_WAKE_ON_UNLOCK_DMA} == p.flags - {BIT_WAKE_ON_UNLOCK_DMA}
          && r.pipe.(flags := p.flags, dma := p.dma) == p
          && r.ret == (if BIT_CLOSED_ON_HOST in p.flags then -EIO else 0))
  }

  /** The locked path as written: a woken caller finds the region unlocked and leaves it so. */
  predicate LockedPathAsWritten(p: Pipe, w: Wait, r: Acquired)
    requires p.dma.Some?
  {
    WaitOutcome(p, w, r) && (w == Woken ==> r.pipe.dma == Some(p.dma.value.(locked := false)))
  }

  /**
   * The locked path corrected: a woken caller that is told 0 holds the
   * region, locked again; one told -EIO (the pipe was closed on the
   * host) leaves it unlocked.
   */
  predicate LockedPath(p: Pipe, w: Wait, r: Acquired)
    requires p.dma.Some?
  {
    WaitOutcome(p, w, r)
    && (w == Woken ==> r.pipe.dma == Some(p.dma.value.(locked := r.ret == 0)))
  }

  /**
   * goldfish_pipe_dma_acquire_lock as written. A closing pipe succeeds
   * with no change; a locked region makes the caller set the
   * wait-for-unlock bit and wait: the unlock that wakes it (DmaClearLock)
   * leaves the region unlocked and the call returns 0 without locking it
   * again, unless the closed bit is set; an unlocked region is locked; no
   * region is -EINVAL.
   */
  function DmaAcquireLockAsWritten(p: Pipe, w: Wait): (r: Acquired)
    ensures p.closing ==> r == Acquired(p, 0)
    ensures !p.closing && p.dma.None? ==> r == Acquired(p, -EINVAL)
    ensures !p.closing && p.dma.Some? && !p.dma.value.locked ==>
              r == Acquired(p.(dma := Some(p.dma.value.(locked := true))), 0)
    ensures !p.closing && p.dma.Some? && p.dma.value.locked ==> LockedPathAsWritten(p, w, r)
  {
    if p.closing then Acquired(p, 0)
    else if p.dma.Some? && p.dma.value.locked then
      var waiting := p.(flags := p.flags + {BIT_WAKE_ON_UNLOCK_DMA});
      match w
        case Woken =>
          var q := DmaClearLock(waiting);
          Acquired(q, if BIT_CLOSED_ON_HOST in q.flags then -EIO else 0)
        case WaitInterrupted => Acquired(waiting, -ERESTARTSYS)
        case WaitClosed => Acquired(waiting.(flags := {BIT_CLOSED_ON_HOST}), -EIO)
    else if p.dma.Some? then Acquired(p.(dma := Some(p.dma.value.(locked := true))), 0)
    else Acquired(p, -EINVAL)
  }

  /**
   * For every pipe waiting on a locked region: the caller woken by the
   * unlock is told it holds the lock, yet the region is left unlocked, so
   * the next caller takes it too, whatever its wait would have done.
   */
  lemma AcquireAfterWaitLeavesUnlocked(p: Pipe, w2: Wait)
    requires !p.closing && p.dma.Some? && p.dma.value.locked && BIT_CLOSED_ON_HOST !in p.flags
    ensures var first := DmaAcquireLockAsWritten(p, Woken);
      var second := DmaAcquireLockAsWritten(first.pipe, w2);
      first.ret == 0 && !first.pipe.dma.value.locked && second.ret == 0
  {
  }

  /** One concrete instance: a 4096-byte locked region with no flags set. */
  lemma AcquireAfterWaitExample()
    ensures var p := Pipe({}, {}, NIL, NIL, false, Some(Dma(4096, true, 0, true)));
      var first := DmaAcquireLockAsWritten(p, Woken);
      var second := DmaAcquireLockAsWritten(first.pipe, WaitInterrupted);
      first.ret == 0 && !first.pipe.dma.value.locked && second.ret == 0
  {
    AcquireAfterWaitLeavesUnlocked(Pipe({}, {}, NIL, NIL, false, Some(Dma(4096, true, 0, true))), WaitInterrupted);
  }

  /**
   * goldfish_pipe_dma_acquire_lock with the lock taken after the wait,
   * as a retry of the whole operation would: whenever it reports success
   * on a pipe that is not closing, the region is locked.
   */
  function DmaAcquireLock(p: Pipe, w: Wait): (r: Acquired)
    ensures p.closing ==> r == Acquired(p, 0)
    ensures !p.closing && p.dma.None? ==> r == Acquired(p, -EINVAL)
    ensures !p.closing && p.dma.Some? && !p.dma.value.locked ==>
              r == Acquired(p.(dma := Some(p.dma.value.(locked := true))), 0)
    ensures r.ret == 0 && !p.closing ==> r.pipe.dma.Some? && r.pipe.dma.value.locked
    ensures r.ret in {0, -EINVAL, -ERESTARTSYS, -EIO}
    ensures !p.closing && p.dma.Some? && p.dma.value.locked ==> LockedPath(p, w, r)
  {
    var a := DmaAcquireLockAsWritten(p, w);
    if !p.closing && p.dma.Some? && p.dma.value.locked && a.ret == 0 then
      Acquired(a.pipe.(dma := Some(a.pipe.dma.value.(locked := true))), 0)
    else a
  }

  /**
   * With the corrected operation, once a caller holds the lock a second
   * caller succeeds only after being woken by an unlock.
   */
  lemma AcquiredLockExcludesOthers(p: Pipe, w1: Wait, w2: Wait)
    requires !p.closing
    ensures var first := DmaAcquireLock(p, w1);
      first.ret == 0 ==> (DmaAcquireLock(first.pipe, w2).ret == 0 ==> w2 == Woken)
  {
  }
}
