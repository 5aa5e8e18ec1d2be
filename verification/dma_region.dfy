/**
 * The per-pipe DMA region (struct goldfish_dma_context): its size check,
 * its lazy allocation and its release, with the device-wide counter of
 * allocated DMA bytes.
 */
module DmaRegion {
  import opened PipeAbi

  function Pow2(k: nat): (p: nat)
    ensures p >= 1
  {
    if k == 0 then 1 else 2 * Pow2(k - 1)
  }

  /** The bitwise AND of two unsigned integers, bit by bit from the lowest. */
  function BitAnd(x: nat, y: nat): nat
  {
    if x == 0 || y == 0 then 0 else 2 * BitAnd(x / 2, y / 2) + (x % 2) * (y % 2)
  }

  lemma MulAtLeast(a: int, d: int)
    requires a >= 1 && d > 0
    ensures a * d >= d
  {
  }

  /** A quotient and remainder that reassemble x are the ones `/` and `%` give. */
  lemma ModUnique(x: int, d: int, q: int, r: int)
    requires d > 0 && 0 <= r < d && x == q * d + r
    ensures x % d == r
  {
    var q', r' := x / d, x % d;
    assert (q - q') * d == r' - r;
    if q > q' {
      MulAtLeast(q - q', d);
    } else if q < q' {
      MulAtLeast(q' - q, d);
    }
  }

  lemma ModHalf(x: nat, p: nat)
    requires p >= 1
    ensures 2 * ((x / 2) % p) + x % 2 == x % (2 * p)
  {
    var q, r := (x / 2) / p, (x / 2) % p;
    assert x / 2 == q * p + r;
    assert x == q * (2 * p) + (2 * r + x % 2);
    ModUnique(x, 2 * p, q, 2 * r + x % 2);
  }

  /** Masking with 2^k - 1 keeps the remainder modulo 2^k. */
  lemma {:induction false} AndLowMask(x: nat, k: nat)
    ensures BitAnd(x, Pow2(k) - 1) == x % Pow2(k)
  {
    if k == 0 {
      assert Pow2(k) == 1;
    } else if x == 0 {
      assert BitAnd(x, Pow2(k) - 1) == 0;
    } else {
      var h := Pow2(k - 1);
      assert Pow2(k) == 2 * h;
      assert (2 * h - 1) / 2 == h - 1 && (2 * h - 1) % 2 == 1;
      assert BitAnd(x, 2 * h - 1) == 2 * BitAnd(x / 2, h - 1) + x % 2;
      AndLowMask(x / 2, k - 1);
      ModHalf(x, h);
      assert x % Pow2(k) == x % (2 * h);
    }
  }

  /** is_page_size_multiple: `!(sz & (PAGE_SIZE - 1))`, which holds exactly for whole numbers of pages. */
  function IsPageSizeMultiple(sz: nat): (r: bool)
    ensures r <==> sz % PAGE_SIZE == 0
  {
    assert Pow2(PAGE_SHIFT) == PAGE_SIZE;
    AndLowMask(sz, PAGE_SHIFT);
    BitAnd(sz, PAGE_SIZE - 1) == 0
  }

  /**
   * A DMA context: the requested size, whether the coherent buffer has
   * been allocated (dma_vaddr set), its physical base and the lock flag.
   */
  datatype Dma = Dma(size: nat, hasBuffer: bool, physBegin: nat, locked: bool)

  /** A context as goldfish_pipe_dma_create_region makes it: zeroed, with the requested size. */
  function NewRegion(size: nat): (d: Dma)
    ensures d.size == size && !d.hasBuffer && !d.locked
  {
    Dma(size, false, 0, false)
  }

  /** A context with the device counter of allocated DMA bytes. */
  datatype Alloc = Alloc(dma: Dma, total: int)

  /**
   * goldfish_pipe_dma_alloc_locked: nothing happens once the buffer
   * exists; otherwise the buffer is allocated at `phys` (what
   * dma_alloc_coherent returns; a failure there is a kernel BUG) and its
   * size is added to the counter.
   */
  function DmaAllocLocked(d: Dma, total: int, phys: nat): (r: Alloc)
    ensures r.dma.hasBuffer && r.dma.size == d.size && r.dma.locked == d.locked
    ensures d.hasBuffer ==> r == Alloc(d, total)
    ensures !d.hasBuffer ==> r.dma.physBegin == phys && r.total == total + d.size
  {
    if d.hasBuffer then Alloc(d, total)
    else Alloc(d.(hasBuffer := true, physBegin := phys), total + d.size)
  }

  /** goldfish_pipe_dma_release_guest_locked: the counter after freeing the buffer, if there was one. */
  function DmaReleaseGuestLocked(d: Dma, total: int): (t: int)
    ensures t == total - (if d.hasBuffer then d.size else 0)
  {
    if d.hasBuffer then total - d.size else total
  }

  /** goldfish_pipe_dma_release_host_locked: the region is unlocked (the host unmap command is not modelled). */
  function DmaReleaseHostLocked(d: Dma): (e: Dma)
    ensures !e.locked && e.(locked := d.locked) == d
  {
    d.(locked := false)
  }

  /** Allocating twice is allocating once: the second call changes nothing. */
  lemma AllocIdempotent(d: Dma, total: int, phys: nat, phys2: nat)
    ensures var r := DmaAllocLocked(d, total, phys);
      DmaAllocLocked(r.dma, r.total, phys2) == r
  {
  }

  /** Releasing a region allocated from scratch gives the counter back its old value. */
  lemma ReleaseUndoesAlloc(d: Dma, total: int, phys: nat)
    requires !d.hasBuffer
    ensures var r := DmaAllocLocked(d, total, phys);
      DmaReleaseGuestLocked(r.dma, r.total) == total
  {
  }
}
