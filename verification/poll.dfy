/**
 * goldfish_pipe_poll: the host answers a POLL command with a status whose
 * low bits say whether the pipe can be read, written or has hung up; the
 * driver translates them into the caller's poll event mask.
 */
module Poll {
  import opened PipeAbi

  /**
   * goldfish_pipe_cmd: the host's status, or PIPE_ERROR_IO when waiting
   * for the pipe mutex is interrupted.
   */
  function PipeCmd(lockInterrupted: bool, hostStatus: int): (status: int)
    ensures lockInterrupted ==> status == PIPE_ERROR_IO
    ensures !lockInterrupted ==> status == hostStatus
  {
    if lockInterrupted then PIPE_ERROR_IO else hostStatus
  }

  /** `-ERESTARTSYS` converted to the unsigned int the function returns: 2^32 - 512. */
  const RESTARTSYS_MASK: bv32 := 0xFFFF_FE00

  /** The only bits a successful poll can report. */
  const POLL_EVENTS: bv32 := POLLIN | POLLRDNORM | POLLOUT | POLLWRNORM | POLLHUP | POLLERR

  /**
   * The mask goldfish_pipe_poll returns for a POLL status (a C int) and
   * the pipe's closed-by-host bit.
   */
  function PollMask(status: int, closedOnHost: bool): (mask: bv32)
    requires -0x8000_0000 <= status < 0x8000_0000
    ensures status < 0 ==> mask == RESTARTSYS_MASK
    ensures status >= 0 ==> mask & !POLL_EVENTS == 0
    ensures status >= 0 ==> ((mask & POLLIN != 0) <==> (status as bv32) & PIPE_POLL_IN != 0)
    ensures status >= 0 ==> ((mask & POLLRDNORM != 0) <==> (status as bv32) & PIPE_POLL_IN != 0)
    ensures status >= 0 ==> ((mask & POLLOUT != 0) <==> (status as bv32) & PIPE_POLL_OUT != 0)
    ensures status >= 0 ==> ((mask & POLLWRNORM != 0) <==> (status as bv32) & PIPE_POLL_OUT != 0)
    ensures status >= 0 ==> ((mask & POLLHUP != 0) <==> (status as bv32) & PIPE_POLL_HUP != 0)
    ensures status >= 0 ==> ((mask & POLLERR != 0) <==> closedOnHost)
  {
    if status < 0 then RESTARTSYS_MASK
    else
      var s := status as bv32;
      (if s & PIPE_POLL_IN != 0 then POLLIN | POLLRDNORM else 0)
      | (if s & PIPE_POLL_OUT != 0 then POLLOUT | POLLWRNORM else 0)
      | (if s & PIPE_POLL_HUP != 0 then POLLHUP else 0)
      | (if closedOnHost then POLLERR else 0)
  }

  /**
   * A failed POLL command (an interrupted mutex wait included) is reported
   * as a mask with none of the poll events set but other bits set: the
   * negative errno is not recognisable as an error by the caller.
   */
  lemma FailedPollHasNoEvents(lockInterrupted: bool, hostStatus: int, closedOnHost: bool)
    requires -0x8000_0000 <= hostStatus < 0x8000_0000
    requires lockInterrupted || hostStatus < 0
    ensures var mask := PollMask(PipeCmd(lockInterrupted, hostStatus), closedOnHost);
      mask & POLL_EVENTS == 0 && mask != 0
  {
    assert PipeCmd(lockInterrupted, hostStatus) < 0;
    assert POLL_EVENTS == 0x15D;
  }
}
