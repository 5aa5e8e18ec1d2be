/**
 * The read/write path of a pipe (goldfish_pipe_read_write and
 * transfer_max_buffers): the user buffer is sent to the host in chunks of
 * at most MAX_BUFFERS_PER_COMMAND pinned pages until it is used up, the
 * host reports end of stream, or an error stops the loop.
 *
 * The environment is a finite trace of rounds, one per call of
 * transfer_max_buffers. A round says what get_user_pages_fast returns,
 * whether taking the pipe mutex is interrupted, what status and
 * consumed_size the host writes into the command buffer, and how a
 * blocking wait for the host ends if the round leads to one.
 */
module ReadWrite {
  import opened PipeAbi
  import opened Wrappers
  import opened HostErrors
  import opened ScatterGather

  datatype Round = Round(gup: int, lockInterrupted: bool, status: int, consumed: int, wait: Wait)

  /** What transfer_max_buffers returns: an error, or the host's status and consumed_size. */
  datatype Transfer = TransferFailed(err: int) | Transferred(status: int, consumed: int)

  /** Pages pinned by one transfer and pages released again before it returns. */
  datatype Pins = Pins(pinned: nat, released: nat)

  datatype TransferResult = TransferResult(outcome: Transfer, pins: Pins)

  /** The number of pages pin_user_pages pins for the chunk starting at `address`. */
  function PinnedPages(address: nat, addressEnd: nat, gup: int): (n: nat)
    requires address < addressEnd
    ensures n == (if gup > 0 then gup else 0)
  {
    PageOfMonotone(address, addressEnd - 1);
    var pin := PinUserPages(PageOf(address), PageOf(addressEnd - 1), PageOffset(addressEnd - 1) + 1, gup);
    if pin.Pinned? then pin.count else 0
  }

  /**
   * transfer_max_buffers as written: a failed pin returns -EFAULT; an
   * interrupted mutex_lock_interruptible returns -ERESTARTSYS without
   * releasing the pages just pinned; otherwise the host executes the
   * command and every pinned page is released.
   */
  function TransferMaxBuffersAsWritten(address: nat, addressEnd: nat, r: Round): (t: TransferResult)
    requires address < addressEnd
    ensures t.outcome.TransferFailed? <==> r.gup <= 0 || r.lockInterrupted
    ensures r.gup <= 0 ==> t.outcome == TransferFailed(-EFAULT) && t.pins == Pins(0, 0)
    ensures r.gup > 0 && r.lockInterrupted ==> t.outcome == TransferFailed(-ERESTARTSYS) && t.pins == Pins(r.gup, 0)
    ensures t.outcome.Transferred? ==> t.outcome == Transferred(r.status, r.consumed) && t.pins == Pins(r.gup, r.gup)
  {
    var n := PinnedPages(address, addressEnd, r.gup);
    if r.gup <= 0 then TransferResult(TransferFailed(-EFAULT), Pins(0, 0))
    else if r.lockInterrupted then TransferResult(TransferFailed(-ERESTARTSYS), Pins(n, 0))
    else TransferResult(Transferred(r.status, r.consumed), Pins(n, n))
  }

  /** A round in which pages are pinned and the mutex wait is interrupted leaks every pinned page. */
  lemma AsWrittenLeaksPages()
    ensures var t := TransferMaxBuffersAsWritten(0, 5000, Round(2, true, 0, 0, Woken));
      t.outcome == TransferFailed(-ERESTARTSYS) && t.pins.pinned == 2 && t.pins.released == 0
  {
  }

  /**
   * transfer_max_buffers with the pinned pages released on the
   * interrupted-lock path too: the same outcome, and no page stays pinned.
   */
  function TransferMaxBuffers(address: nat, addressEnd: nat, r: Round): (t: TransferResult)
    requires address < addressEnd
    ensures t.outcome == TransferMaxBuffersAsWritten(address, addressEnd, r).outcome
    ensures t.pins.pinned == TransferMaxBuffersAsWritten(address, addressEnd, r).pins.pinned
    ensures t.pins.released == t.pins.pinned
  {
    var n := PinnedPages(address, addressEnd, r.gup);
    if r.gup <= 0 then TransferResult(TransferFailed(-EFAULT), Pins(0, 0))
    else if r.lockInterrupted then TransferResult(TransferFailed(-ERESTARTSYS), Pins(n, n))
    else TransferResult(Transferred(r.status, r.consumed), Pins(n, n))
  }

  /** The loop variables of goldfish_pipe_read_write. */
  datatype LoopState = LoopState(count: int, address: nat, ret: int)

  /** What the call returns, the bytes it moved and the rounds it used. */
  datatype Finish = Finish(ret: int, count: int, used: nat)

  /** `if (count > 0) return count; return ret;` */
  function Final(count: int, ret: int, used: nat): Finish
  {
    Finish(if count > 0 then count else ret, count, used)
  }

  /** A positive consumed_size advances count and address; ret is 0 after a transfer. */
  function Advance(s: LoopState, consumed: int): (s': LoopState)
  {
    if consumed > 0 then LoopState(s.count + consumed, s.address + consumed, 0)
    else LoopState(s.count, s.address, 0)
  }

  /**
   * The `while (address < address_end)` loop from round i on; None when
   * the trace runs out before the loop ends.
   */
  function Loop(rounds: seq<Round>, i: nat, addressEnd: nat, nonBlocking: bool, s: LoopState): Option<Finish>
    requires i <= |rounds|
    decreases |rounds| - i
  {
    if s.address >= addressEnd then Some(Final(s.count, s.ret, i))
    else if i == |rounds| then None
    else
      var t := TransferMaxBuffers(s.address, addressEnd, rounds[i]).outcome;
      if t.TransferFailed? then Some(Final(s.count, t.err, i + 1))
      else
        var s' := Advance(s, t.consumed);
        if t.status > 0 then Loop(rounds, i + 1, addressEnd, nonBlocking, s')
        else if t.status == 0 then Some(Final(s'.count, 0, i + 1))
        else if s'.count > 0 then Some(Final(s'.count, 0, i + 1))
        else if t.status != PIPE_ERROR_AGAIN || nonBlocking then Some(Final(s'.count, ErrorConvert(t.status), i + 1))
        else match rounds[i].wait
          case Woken => Loop(rounds, i + 1, addressEnd, nonBlocking, s')
          case WaitInterrupted => Some(Finish(-ERESTARTSYS, s'.count, i + 1))
          case WaitClosed => Some(Finish(-EIO, s'.count, i + 1))
  }

  /**
   * goldfish_pipe_read_write: a pipe closed by the host fails with -EIO,
   * an empty transfer succeeds with 0 and an inaccessible buffer fails
   * with -EFAULT, all before any round; otherwise the loop runs from the
   * start of the buffer.
   */
  function ReadWriteSpec(closedOnHost: bool, buffer: nat, bufflen: nat, accessOk: bool,
                         nonBlocking: bool, rounds: seq<Round>): Option<Finish>
  {
    if closedOnHost then Some(Finish(-EIO, 0, 0))
    else if bufflen == 0 then Some(Finish(0, 0, 0))
    else if !accessOk then Some(Finish(-EFAULT, 0, 0))
    else Loop(rounds, 0, buffer + bufflen, nonBlocking, LoopState(0, buffer, -EINVAL))
  }

  /**
   * The early exits happen before any host command: a closed pipe gives
   * -EIO, then a zero length gives 0, then a failed access check gives
   * -EFAULT.
   */
  lemma EarlyExits(closedOnHost: bool, buffer: nat, bufflen: nat, accessOk: bool,
                   nonBlocking: bool, rounds: seq<Round>)
    requires closedOnHost || bufflen == 0 || !accessOk
    ensures var r := ReadWriteSpec(closedOnHost, buffer, bufflen, accessOk, nonBlocking, rounds);
      && r.Some? && r.value.used == 0 && r.value.count == 0
      && r.value.ret == (if closedOnHost then -EIO else if bufflen == 0 then 0 else -EFAULT)
  {
  }

  /**
   * Partial progress is never lost: the count only grows, and the call
   * returns a positive value exactly when bytes were moved, and then that
   * value is the count.
   */
  lemma {:induction false} LoopKeepsProgress(rounds: seq<Round>, i: nat, addressEnd: nat, nonBlocking: bool, s: LoopState)
    requires i <= |rounds| && s.count >= 0 && s.ret <= 0
    ensures var r := Loop(rounds, i, addressEnd, nonBlocking, s);
      r.Some? ==> && r.value.count >= s.count
                  && (r.value.count > 0 ==> r.value.ret == r.value.count)
                  && (r.value.ret > 0 <==> r.value.count > 0)
                  && i <= r.value.used <= |rounds|
    decreases |rounds| - i
  {
    if s.address < addressEnd && i < |rounds| {
      var t := TransferMaxBuffers(s.address, addressEnd, rounds[i]).outcome;
      if t.Transferred? {
        LoopKeepsProgress(rounds, i + 1, addressEnd, nonBlocking, Advance(s, t.consumed));
      }
    }
  }

  /** The whole call: what it returns is positive exactly when bytes moved, and then is their count. */
  lemma ReadWriteKeepsProgress(closedOnHost: bool, buffer: nat, bufflen: nat, accessOk: bool,
                               nonBlocking: bool, rounds: seq<Round>)
    ensures var r := ReadWriteSpec(closedOnHost, buffer, bufflen, accessOk, nonBlocking, rounds);
      r.Some? ==> && r.value.count >= 0
                  && (r.value.count > 0 ==> r.value.ret == r.value.count)
                  && (r.value.ret > 0 <==> r.value.count > 0)
                  && r.value.used <= |rounds|
  {
    if !closedOnHost && bufflen != 0 && accessOk {
      LoopKeepsProgress(rounds, 0, buffer + bufflen, nonBlocking, LoopState(0, buffer, -EINVAL));
    }
  }

  /**
   * In any round whose transfer reaches the host, the host's status
   * decides: a positive status runs the next round from the advanced
   * state, and 0 (end of stream) ends the call with the bytes moved so
   * far, or 0 when there are none.
   */
  lemma HostStatusDecides(rounds: seq<Round>, i: nat, addressEnd: nat, nonBlocking: bool, s: LoopState)
    requires i < |rounds| && s.address < addressEnd
    requires rounds[i].gup > 0 && !rounds[i].lockInterrupted
    ensures rounds[i].status > 0 ==>
      Loop(rounds, i, addressEnd, nonBlocking, s) ==
      Loop(rounds, i + 1, addressEnd, nonBlocking, Advance(s, rounds[i].consumed))
    ensures rounds[i].status == 0 ==>
      Loop(rounds, i, addressEnd, nonBlocking, s) ==
      Some(Final(Advance(s, rounds[i].consumed).count, 0, i + 1))
    ensures rounds[i].status == 0 && s.count == 0 && rounds[i].consumed <= 0 ==>
      Loop(rounds, i, addressEnd, nonBlocking, s) == Some(Finish(0, 0, i + 1))
  {
  }

  /**
   * Once bytes have been moved, in earlier rounds or by this round's own
   * consumed size, a round whose host status is negative ends the call
   * with the count, whatever the error and the mode.
   */
  lemma ErrorAfterProgress(rounds: seq<Round>, i: nat, addressEnd: nat, nonBlocking: bool, s: LoopState)
    requires i < |rounds| && s.address < addressEnd
    requires s.count >= 0 && Advance(s, rounds[i].consumed).count > 0
    requires rounds[i].gup > 0 && !rounds[i].lockInterrupted && rounds[i].status < 0
    ensures var c := Advance(s, rounds[i].consumed).count;
      c >= s.count && Loop(rounds, i, addressEnd, nonBlocking, s) == Some(Finish(c, c, i + 1))
  {
  }

  /**
   * In any round, a host failure with nothing moved so far is returned as
   * the converted errno when it is not AGAIN or the file is non-blocking;
   * AGAIN in non-blocking mode therefore gives -EAGAIN.
   */
  lemma FailureWithoutProgressConverted(rounds: seq<Round>, i: nat, addressEnd: nat, nonBlocking: bool, s: LoopState)
    requires i < |rounds| && s.address < addressEnd && s.count == 0
    requires rounds[i].gup > 0 && !rounds[i].lockInterrupted
    requires rounds[i].status < 0 && rounds[i].consumed <= 0
    requires rounds[i].status != PIPE_ERROR_AGAIN || nonBlocking
    ensures var r := Loop(rounds, i, addressEnd, nonBlocking, s);
      && r == Some(Finish(ErrorConvert(rounds[i].status), 0, i + 1))
      && (rounds[i].status == PIPE_ERROR_AGAIN ==> r.value.ret == -EAGAIN)
  {
  }

  /**
   * In any round of a blocking call, AGAIN with nothing moved so far
   * waits; the wait decides: woken means the next round runs from the
   * same address, interrupted gives -ERESTARTSYS and a close by the host
   * gives -EIO.
   */
  lemma AgainWithoutProgressWaits(rounds: seq<Round>, i: nat, addressEnd: nat, s: LoopState)
    requires i < |rounds| && s.address < addressEnd && s.count == 0
    requires rounds[i].gup > 0 && !rounds[i].lockInterrupted
    requires rounds[i].status == PIPE_ERROR_AGAIN && rounds[i].consumed <= 0
    ensures var r := Loop(rounds, i, addressEnd, false, s);
      && (rounds[i].wait == WaitInterrupted ==> r == Some(Finish(-ERESTARTSYS, 0, i + 1)))
      && (rounds[i].wait == WaitClosed ==> r == Some(Finish(-EIO, 0, i + 1)))
      && (rounds[i].wait == Woken ==> r == Loop(rounds, i + 1, addressEnd, false, LoopState(0, s.address, 0)))
  {
  }

  /**
   * The first round of a call: a host failure is returned as the
   * converted errno when it is not AGAIN or the file is non-blocking.
   */
  lemma FirstFailureConverted(buffer: nat, bufflen: nat, nonBlocking: bool, rounds: seq<Round>)
    requires bufflen > 0 && |rounds| > 0
    requires rounds[0].gup > 0 && !rounds[0].lockInterrupted
    requires rounds[0].status < 0 && rounds[0].consumed <= 0
    requires rounds[0].status != PIPE_ERROR_AGAIN || nonBlocking
    ensures var r := ReadWriteSpec(false, buffer, bufflen, true, nonBlocking, rounds);
      && r == Some(Finish(ErrorConvert(rounds[0].status), 0, 1))
      && (rounds[0].status == PIPE_ERROR_AGAIN ==> r.value.ret == -EAGAIN)
  {
    FailureWithoutProgressConverted(rounds, 0, buffer + bufflen, nonBlocking, LoopState(0, buffer, -EINVAL));
  }

  /**
   * The first round of a blocking call that sees AGAIN: the wait decides
   * whether the second round runs or the call ends.
   */
  lemma BlockingAgainWaits(buffer: nat, bufflen: nat, rounds: seq<Round>)
    requires bufflen > 0 && |rounds| > 0
    requires rounds[0].gup > 0 && !rounds[0].lockInterrupted
    requires rounds[0].status == PIPE_ERROR_AGAIN && rounds[0].consumed <= 0
    ensures var r := ReadWriteSpec(false, buffer, bufflen, true, false, rounds);
      && (rounds[0].wait == WaitInterrupted ==> r == Some(Finish(-ERESTARTSYS, 0, 1)))
      && (rounds[0].wait == WaitClosed ==> r == Some(Finish(-EIO, 0, 1)))
      && (rounds[0].wait == Woken ==>
            r == Loop(rounds, 1, buffer + bufflen, false, LoopState(0, buffer, 0)))
  {
    AgainWithoutProgressWaits(rounds, 0, buffer + bufflen, LoopState(0, buffer, -EINVAL));
  }

  /** A write of 5000 bytes whose host takes 2000 bytes and then says AGAIN returns 2000. */
  lemma AgainAfterPartialWrite()
    ensures ReadWriteSpec(false, 0, 5000, true, false, [Round(2, false, PIPE_ERROR_AGAIN, 2000, Woken)])
            == Some(Finish(2000, 2000, 1))
  {
  }

  /** A blocking write that first sees AGAIN, is woken, and then has all 5000 bytes taken returns 5000. */
  lemma WokenThenCompleted()
    ensures ReadWriteSpec(false, 0, 5000, true, false,
                          [Round(2, false, PIPE_ERROR_AGAIN, 0, Woken), Round(2, false, 5000, 5000, Woken)])
            == Some(Finish(5000, 5000, 2))
  {
    var rounds := [Round(2, false, PIPE_ERROR_AGAIN, 0, Woken), Round(2, false, 5000, 5000, Woken)];
    assert TransferMaxBuffers(0, 5000, rounds[0]).outcome == Transferred(PIPE_ERROR_AGAIN, 0);
    assert TransferMaxBuffers(0, 5000, rounds[1]).outcome == Transferred(5000, 5000);
    assert Loop(rounds, 2, 5000, false, LoopState(5000, 5000, 0)) == Some(Finish(5000, 5000, 2));
    assert Loop(rounds, 1, 5000, false, LoopState(0, 0, 0)) == Some(Finish(5000, 5000, 2));
    assert Loop(rounds, 0, 5000, false, LoopState(0, 0, -EINVAL)) == Some(Finish(5000, 5000, 2));
  }

  /**
   * goldfish_pipe_read_write over the trace `rounds`. Returns what the
   * call returns (None when the trace ends before the call does) and the
   * pages pinned and released along the way.
   */
  method ReadWriteCall(closedOnHost: bool, buffer: nat, bufflen: nat, accessOk: bool,
                       nonBlocking: bool, rounds: seq<Round>)
    returns (result: Option<Finish>, pinned: nat, released: nat)
    ensures result == ReadWriteSpec(closedOnHost, buffer, bufflen, accessOk, nonBlocking, rounds)
    ensures released == pinned
  {
    pinned, released := 0, 0;
    if closedOnHost {
      return Some(Finish(-EIO, 0, 0)), pinned, released;
    }
    if bufflen == 0 {
      return Some(Finish(0, 0, 0)), pinned, released;
    }
    if !accessOk {
      return Some(Finish(-EFAULT, 0, 0)), pinned, released;
    }
    var address: nat, addressEnd := buffer, buffer + bufflen;
    var count, ret := 0, -EINVAL;
    var i := 0;
    while address < addressEnd
      invariant i <= |rounds|
      invariant Loop(rounds, i, addressEnd, nonBlocking, LoopState(count, address, ret))
                == ReadWriteSpec(closedOnHost, buffer, bufflen, accessOk, nonBlocking, rounds)
      invariant released == pinned
      decreases |rounds| - i
    {
      if i == |rounds| {
        return None, pinned, released;
      }
      ghost var s := LoopState(count, address, ret);
      var t := TransferMaxBuffers(address, addressEnd, rounds[i]);
      pinned, released := pinned + t.pins.pinned, released + t.pins.released;
      i := i + 1;
      if t.outcome.TransferFailed? {
        ret := t.outcome.err;
        break;
      }
      ret := 0;
      var status, consumed := t.outcome.status, t.outcome.consumed;
      if consumed > 0 {
        count := count + consumed;
        address := address + consumed;
      }
      assert LoopState(count, address, ret) == Advance(s, consumed);
      if status > 0 {
        continue;
      }
      if status == 0 {
        break;
      }
      if count > 0 {
        break;
      }
      if status != PIPE_ERROR_AGAIN || nonBlocking {
        ret := ErrorConvert(status);
        break;
      }
      match rounds[i - 1].wait {
        case Woken =>
        case WaitInterrupted =>
          return Some(Finish(-ERESTARTSYS, count, i)), pinned, released;
        case WaitClosed =>
          return Some(Finish(-EIO, count, i)), pinned, released;
      }
    }
    result := Some(Final(count, ret, i));
  }
}
