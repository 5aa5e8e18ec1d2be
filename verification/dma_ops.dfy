/**
 * The DMA operations a user performs on an open pipe: the ioctl commands
 * (goldfish_dma_ioctl, with region creation) and mmap (goldfish_dma_mmap).
 * Each is a function of the pipe, the device's DMA byte counter and the
 * outcomes of the kernel calls it makes.
 */
module DmaOps {
  import opened PipeAbi
  import opened Wrappers
  import opened DmaRegion
  import opened PipeState

  /**
   * The ioctl commands (GOLDFISH_DMA_IOC_*; their numbers come from a
   * header that is not part of this model) and any other number.
   */
  datatype IoctlCmd = IocLock | IocUnlock | IocGetOff | IocCreateRegion | IocOther

  /** An ioctl's effect: the pipe afterwards, the return value and, for GETOFF, the offset copied out. */
  datatype IoctlResult = IoctlResult(pipe: Pipe, ret: int, off: Option<nat>)

  /**
   * goldfish_pipe_dma_create_region: with a DMA context allocated
   * (`allocOk`, the kzalloc outcome) the pipe gets a fresh context of the
   * requested size, replacing any it had; otherwise nothing changes.
   */
  function CreateRegion(p: Pipe, size: nat, allocOk: bool): (q: Pipe)
    ensures allocOk ==> q == p.(dma := Some(NewRegion(size)))
    ensures !allocOk ==> q == p
  {
    if allocOk then p.(dma := Some(NewRegion(size))) else p
  }

  /**
   * goldfish_dma_ioctl. A closing pipe answers -ENOTTY and a failed copy
   * of the argument -EFAULT, before any command runs. LOCK is the
   * acquire-lock operation; UNLOCK clears the lock and returns 0; GETOFF
   * copies the region's physical base out (-EFAULT if that copy fails);
   * CREATE_REGION rejects a size that is not a whole number of pages with
   * -EINVAL and otherwise creates the region and returns 0, even when the
   * context could not be allocated; any other command is -ENOTTY.
   * `copyInOk`/`copyOutOk` are the copy_from_user/copy_to_user outcomes,
   * `size` the size field of the argument, `allocOk` the kzalloc outcome
   * and `w` the outcome of the wait LOCK may perform.
   */
  function Ioctl(p: Pipe, cmd: IoctlCmd, copyInOk: bool, copyOutOk: bool, size: nat, allocOk: bool, w: Wait): (r: IoctlResult)
    requires cmd == IocGetOff && !p.closing && copyInOk ==> p.dma.Some?
    ensures p.closing ==> r == IoctlResult(p, -ENOTTY, None)
    ensures !p.closing && !copyInOk ==> r == IoctlResult(p, -EFAULT, None)
    ensures r.pipe.prev == p.prev && r.pipe.next == p.next && r.pipe.signalledFlags == p.signalledFlags
    ensures r.pipe.closing == p.closing
    ensures r.off.Some? ==> cmd == IocGetOff && r.ret == 0 && p.dma.Some? && r.off == Some(p.dma.value.physBegin)
    ensures !p.closing && copyInOk && cmd == IocCreateRegion ==>
              r == if IsPageSizeMultiple(size) then IoctlResult(CreateRegion(p, size, allocOk), 0, None)
                   else IoctlResult(p, -EINVAL, None)
    ensures !p.closing && copyInOk && cmd == IocUnlock ==> r == IoctlResult(DmaClearLock(p), 0, None)
    ensures !p.closing && copyInOk && cmd == IocGetOff ==>
              r == if copyOutOk then IoctlResult(p, 0, Some(p.dma.value.physBegin)) else IoctlResult(p, -EFAULT, None)
    ensures !p.closing && copyInOk && cmd == IocOther ==> r == IoctlResult(p, -ENOTTY, None)
    ensures !p.closing && copyInOk && cmd == IocLock ==>
              && r == IoctlResult(DmaAcquireLock(p, w).pipe, DmaAcquireLock(p, w).ret, None)
              && r.ret in {0, -EINVAL, -ERESTARTSYS, -EIO} && (r.ret == 0 ==> r.pipe.dma.Some? && r.pipe.dma.value.locked)
  {
    if p.closing then IoctlResult(p, -ENOTTY, None)
    else if !copyInOk then IoctlResult(p, -EFAULT, None)
    else match cmd
      case IocLock =>
        var a := DmaAcquireLock(p, w);
        IoctlResult(a.pipe, a.ret, None)
      case IocUnlock => IoctlResult(DmaClearLock(p), 0, None)
      case IocGetOff =>
        if copyOutOk then IoctlResult(p, 0, Some(p.dma.value.physBegin)) else IoctlResult(p, -EFAULT, None)
      case IocCreateRegion =>
        if !IsPageSizeMultiple(size) then IoctlResult(p, -EINVAL, None)
        else IoctlResult(CreateRegion(p, size, allocOk), 0, None)
      case IocOther => IoctlResult(p, -ENOTTY, None)
  }

  /** An mmap's effect: the pipe, the device's DMA byte counter and the return value. */
  datatype MmapResult = MmapResult(pipe: Pipe, total: int, ret: int)

  /**
   * goldfish_dma_mmap for a mapping of `size` bytes: a closing pipe or a
   * size that is not a whole number of pages is -EINVAL with nothing
   * changed; otherwise the region's buffer is allocated if it was not
   * (at `phys`, the dma_alloc_coherent outcome) and the mapping made;
   * a failed remap_pfn_range (`remapOk` false) is -EAGAIN, but the
   * buffer stays allocated.
   */
  function Mmap(p: Pipe, total: int, size: nat, phys: nat, remapOk: bool): (r: MmapResult)
    requires !p.closing && IsPageSizeMultiple(size) ==> p.dma.Some?
    ensures p.closing || !IsPageSizeMultiple(size) ==> r == MmapResult(p, total, -EINVAL)
    ensures !p.closing && IsPageSizeMultiple(size) ==>
              && r.pipe.dma.Some? && r.pipe.dma.value.hasBuffer
              && r.ret == (if remapOk then 0 else -EAGAIN)
              && r.total == total + (if p.dma.value.hasBuffer then 0 else p.dma.value.size)
              && r.pipe.dma == Some(DmaAllocLocked(p.dma.value, total, phys).dma)
    ensures r.pipe.(dma := p.dma) == p
  {
    if p.closing || !IsPageSizeMultiple(size) then MmapResult(p, total, -EINVAL)
    else
      var a := DmaAllocLocked(p.dma.value, total, phys);
      MmapResult(p.(dma := Some(a.dma)), a.total, if remapOk then 0 else -EAGAIN)
  }

  /** A second mmap of an allocated region allocates nothing more. */
  lemma MmapAllocatesOnce(p: Pipe, total: int, size: nat, size2: nat, phys: nat, phys2: nat, ok: bool, ok2: bool)
    requires !p.closing && p.dma.Some? && IsPageSizeMultiple(size) && IsPageSizeMultiple(size2)
    ensures var r := Mmap(p, total, size, phys, ok);
      var r2 := Mmap(r.pipe, r.total, size2, phys2, ok2);
      r2.total == r.total && r2.pipe == r.pipe
  {
  }

  /** Releasing a pipe after mmap gives the device counter back its value from before the mmap. */
  lemma MmapThenReleaseBalances(p: Pipe, total: int, size: nat, phys: nat, ok: bool)
    requires !p.closing && p.dma.Some? && !p.dma.value.hasBuffer && IsPageSizeMultiple(size)
    ensures var r := Mmap(p, total, size, phys, ok);
      DmaReleaseGuestLocked(r.pipe.dma.value, r.total) == total
  {
  }

  /**
   * CREATE_REGION after mmap replaces a context whose buffer is allocated
   * with one that has none, so releasing the pipe frees nothing and the
   * device counter keeps the old buffer's size.
   */
  lemma CreateRegionAfterMmapKeepsCount(p: Pipe, total: int, size: nat, phys: nat, ok: bool, size2: nat)
    requires !p.closing && p.dma.Some? && !p.dma.value.hasBuffer && IsPageSizeMultiple(size)
    ensures var r := Mmap(p, total, size, phys, ok);
      var q := CreateRegion(r.pipe, size2, true);
      DmaReleaseGuestLocked(q.dma.value, r.total) == total + p.dma.value.size
  {
  }
}
