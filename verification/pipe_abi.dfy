/**
 * Constants shared by the guest driver and the emulator's pipe device
 * (drivers/platform/goldfish/goldfish_pipe_v2.c, lines 61-139), the
 * Linux errno values the driver returns, and the page arithmetic it uses.
 */
module PipeAbi {

  // Page geometry (4 KiB pages).
  const PAGE_SHIFT: nat := 12
  const PAGE_SIZE: nat := 4096

  const MAX_BUFFERS_PER_COMMAND: nat := 336
  const MAX_SIGNALLED_PIPES: nat := 64
  const INITIAL_PIPES_CAPACITY: nat := 64

  // Status values the host writes into a command buffer (enum PipeErrors).
  const PIPE_ERROR_INVAL: int := -1
  const PIPE_ERROR_AGAIN: int := -2
  const PIPE_ERROR_NOMEM: int := -3
  const PIPE_ERROR_IO: int := -4

  // Linux errno numbers (positive; the driver returns their negation).
  const EIO: int := 5
  const EAGAIN: int := 11
  const ENOMEM: int := 12
  const EFAULT: int := 14
  const EINVAL: int := 22
  const ENOTTY: int := 25
  const ERESTARTSYS: int := 512

  // Events the host reports for a signalled pipe (enum PipeWakeFlags:
  // masks 1, 2, 4 and 8), given by their bit numbers.
  const WAKE_CLOSED_BIT: nat := 0
  const WAKE_READ_BIT: nat := 1
  const WAKE_WRITE_BIT: nat := 2
  const WAKE_UNLOCK_DMA_BIT: nat := 3

  // Bit numbers in a pipe's 'flags' word (enum PipeFlagsBits).
  const BIT_CLOSED_ON_HOST: nat := 0
  const BIT_WAKE_ON_WRITE: nat := 1
  const BIT_WAKE_ON_READ: nat := 2
  const BIT_WAKE_ON_UNLOCK_DMA: nat := 3

  // Bits of the status of a POLL command (enum PipePollFlags).
  const PIPE_POLL_IN: bv32 := 1
  const PIPE_POLL_OUT: bv32 := 2
  const PIPE_POLL_HUP: bv32 := 4

  // Poll event bits of the caller's interface (asm-generic values).
  const POLLIN: bv32 := 0x1
  const POLLOUT: bv32 := 0x4
  const POLLERR: bv32 := 0x8
  const POLLHUP: bv32 := 0x10
  const POLLRDNORM: bv32 := 0x40
  const POLLWRNORM: bv32 := 0x100

  /**
   * How a blocking wait for the host (goldfish_pipe_wait_event) ends: the
   * awaited wake bit was cleared, the wait was interrupted by a signal, or
   * the host closed the pipe meanwhile.
   */
  datatype Wait = Woken | WaitInterrupted | WaitClosed

  /** The null link of the signalled-pipe list. */
  const NIL: int := -1

  /** `x & PAGE_MASK`: the start of the page holding address x. */
  function PageOf(x: nat): (p: nat)
    ensures p <= x < p + PAGE_SIZE && p % PAGE_SIZE == 0
  {
    x - x % PAGE_SIZE
  }

  /** `x & ~PAGE_MASK`: the offset of address x inside its page. */
  function PageOffset(x: nat): (o: nat)
    ensures o < PAGE_SIZE && PageOf(x) + o == x
  {
    x % PAGE_SIZE
  }

  lemma PageOfMonotone(x: nat, y: nat)
    requires x <= y
    ensures PageOf(x) <= PageOf(y)
  {
  }
}
