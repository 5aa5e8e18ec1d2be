/**
 * The pipe device (struct goldfish_pipe_dev): the table of open pipes
 * indexed by id, the head of the signalled list and the counter of
 * allocated DMA bytes, with the operations that change them in place.
 * The list code is proved against the functions of SignalQueue; the
 * per-pipe DMA operations are those of DmaOps applied to a table slot.
 */
module PipeDevice {
  import opened PipeAbi
  import opened Wrappers
  import opened DmaRegion
  import opened PipeState
  import opened SignalQueue
  import opened DmaOps

  /** The lowest empty slot at or after i, or |t| when there is none. */
  function FreeFrom(t: Table, i: nat): (id: nat)
    requires i <= |t|
    ensures i <= id <= |t|
    ensures id < |t| ==> t[id].None?
    ensures forall j :: i <= j < id ==> t[j].Some?
    decreases |t| - i
  {
    if i == |t| then |t|
    else if t[i].None? then i
    else FreeFrom(t, i + 1)
  }

  /** The lowest empty slot of t, or |t| when every slot is taken. */
  function FreeId(t: Table): (id: nat)
    ensures id <= |t|
    ensures id < |t| ==> t[id].None?
    ensures forall j :: 0 <= j < id ==> t[j].Some?
  {
    FreeFrom(t, 0)
  }

  /** The table after its capacity is doubled: the old slots, then as many empty ones. */
  function Grown(t: Table): (g: Table)
    ensures |g| == 2 * |t| && g[..|t|] == t
    ensures forall i :: |t| <= i < |g| ==> g[i].None?
  {
    t + seq(|t|, _ => None)
  }

  /** The number of host entries the top half processes for a reported count. */
  function SignalledCount(count: nat): (n: nat)
    ensures n <= MAX_SIGNALLED_PIPES
    ensures n == count || (count > MAX_SIGNALLED_PIPES && n == MAX_SIGNALLED_PIPES)
  {
    if count > MAX_SIGNALLED_PIPES then MAX_SIGNALLED_PIPES else count
  }

  /** A scan from i that meets only full slots before `stop` finds the first free one at or after `stop`. */
  lemma FreeIsLowest(t: Table, i: nat, stop: nat)
    requires i <= stop <= |t|
    requires forall j :: i <= j < stop ==> t[j].Some?
    requires stop < |t| ==> t[stop].None?
    ensures FreeFrom(t, i) == stop
    decreases stop - i
  {
    if i < stop {
      FreeIsLowest(t, i + 1, stop);
    }
  }

  /**
   * Removing pipe id from the list and emptying its slot leaves every
   * other pipe's state and pending events as they were in t0, the table
   * from before its own slot was changed.
   */
  lemma ReleaseKeepsOthers(t0: Table, q: Queue, id: nat)
    requires |q.table| == |t0| && id < |t0| && q.table[id].Some?
    requires forall i :: 0 <= i < |t0| && i != id ==> q.table[i] == t0[i]
    requires LinkOk(q.table, q.table[id].value.prev) && LinkOk(q.table, q.table[id].value.next)
    ensures var t := Remove(q, id).table[id := None];
      forall i :: 0 <= i < |t| && i != id ==> Body(t[i]) == Body(t0[i]) && Signals(t, i) == Signals(t0, i)
  {
    RemoveSignals(q, id);
  }

  class Device {
    /** dev->pipes, whose length is dev->pipes_capacity. */
    var pipes: array<Option<Pipe>>
    /** dev->first_signalled_pipe, as an id. */
    var first: int
    /** dev->dma_alloc_total. */
    var dmaAllocTotal: int
    /** The signalled list, head first. */
    ghost var Signalled: seq<nat>

    /** The table with the head of the signalled list. */
    function State(): Queue
      reads this, pipes
    {
      Queue(pipes[..], first)
    }

    /** The table is not empty and the links thread exactly the ghost list. */
    ghost predicate Valid()
      reads this, pipes
    {
      pipes.Length >= 1 && Linked(State(), Signalled)
    }

    /** The device as probe sets it up: INITIAL_PIPES_CAPACITY empty slots, an empty list, no DMA bytes. */
    constructor ()
      ensures Valid() && fresh(pipes)
      ensures pipes.Length == INITIAL_PIPES_CAPACITY && forall i :: 0 <= i < pipes.Length ==> pipes[i].None?
      ensures first == NIL && Signalled == [] && dmaAllocTotal == 0
    {
      pipes := new Option<Pipe>[INITIAL_PIPES_CAPACITY](_ => None);
      first := NIL;
      dmaAllocTotal := 0;
      Signalled := [];
    }

    /** signalled_pipes_add_locked, in place. */
    method SignalledAdd(id: nat, flags: set<nat>)
      requires Valid() && id < pipes.Length
      modifies this, pipes
      ensures pipes == old(pipes) && dmaAllocTotal == old(dmaAllocTotal)
      ensures State() == Add(old(State()), id, flags)
      ensures Signalled == Pushed(old(pipes[..]), old(Signalled), id)
      ensures Valid()
    {
      ghost var q0 := State();
      AddSpec(q0, Signalled, id, flags);
      var o := pipes[id];
      if o.None? {
        return;
      }
      var p := o.value.(signalledFlags := o.value.signalledFlags + flags);
      pipes[id] := Some(p);
      if p.prev != NIL || p.next != NIL || first == id {
        InListIff(q0, Signalled, id);
        return;
      }
      InListIff(q0, Signalled, id);
      pipes[id] := Some(p.(next := first));
      if first != NIL {
        var h := pipes[first].value;
        pipes[first] := Some(h.(prev := id));
      }
      first := id;
      Signalled := [id] + Signalled;
    }

    /** signalled_pipes_remove_locked, in place. */
    method SignalledRemove(id: nat)
      requires Valid() && id < pipes.Length && pipes[id].Some?
      modifies this, pipes
      ensures pipes == old(pipes) && dmaAllocTotal == old(dmaAllocTotal)
      ensures State() == Remove(old(State()), id)
      ensures Signalled == Without(old(Signalled), id)
      ensures Valid()
    {
      ghost var q0 := State();
      RemoveSpec(q0, Signalled, id);
      var p := pipes[id].value;
      if p.prev != NIL {
        var a := pipes[p.prev].value;
        pipes[p.prev] := Some(a.(next := p.next));
      }
      if p.next != NIL {
        var b := pipes[p.next].value;
        pipes[p.next] := Some(b.(prev := p.prev));
      }
      if id == first {
        first := p.next;
      }
      var c := pipes[id].value;
      pipes[id] := Some(c.(prev := NIL, next := NIL));
      Signalled := Without(Signalled, id);
    }

    /** signalled_pipes_pop_front, in place. */
    method SignalledPopFront() returns (popped: Option<Popped>)
      requires Valid()
      modifies this, pipes
      ensures pipes == old(pipes) && dmaAllocTotal == old(dmaAllocTotal)
      ensures PopResult(State(), popped) == PopFront(old(State()))
      ensures Signalled == if |old(Signalled)| == 0 then [] else old(Signalled)[1..]
      ensures Valid()
    {
      ghost var q0 := State();
      PopSpec(q0, Signalled);
      if first == NIL {
        return None;
      }
      var id := first;
      var p := pipes[id].value;
      popped := Some(Popped(id, p.signalledFlags));
      pipes[id] := Some(p.(signalledFlags := {}, next := NIL));
      first := p.next;
      if first != NIL {
        var h := pipes[first].value;
        pipes[first] := Some(h.(prev := NIL));
      }
      Signalled := Signalled[1..];
    }

    /**
     * goldfish_pipe_interrupt: IRQ_NONE (false) for another device or a
     * zero count; otherwise the first SignalledCount(count) entries of the
     * host's buffer are added in order and the interrupt is handled.
     */
    method Interrupt(ours: bool, count: nat, entries: seq<Entry>) returns (handled: bool)
      requires Valid()
      requires ours && count > 0 ==> IdsInRange(entries, SignalledCount(count), pipes.Length)
      modifies this, pipes
      ensures pipes == old(pipes) && dmaAllocTotal == old(dmaAllocTotal)
      ensures handled <==> ours && count > 0
      ensures handled ==> State() == AddAll(old(State()), entries, SignalledCount(count))
      ensures handled ==> Signalled == PushedAll(old(pipes[..]), old(Signalled), entries, SignalledCount(count))
      ensures !handled ==> State() == old(State()) && Signalled == old(Signalled)
      ensures Valid()
    {
      if !ours || count == 0 {
        return false;
      }
      AddEntries(entries, SignalledCount(count));
      return true;
    }

    /** The top half's loop: the first n entries of the host's buffer are added in order. */
    method AddEntries(entries: seq<Entry>, n: nat)
      requires Valid() && IdsInRange(entries, n, pipes.Length)
      modifies this, pipes
      ensures pipes == old(pipes) && dmaAllocTotal == old(dmaAllocTotal)
      ensures State() == AddAll(old(State()), entries, n)
      ensures Signalled == PushedAll(old(pipes[..]), old(Signalled), entries, n)
      ensures Valid()
    {
      ghost var q0 := State();
      ghost var L0 := Signalled;
      for i := 0 to n
        invariant pipes == old(pipes) && dmaAllocTotal == old(dmaAllocTotal)
        invariant State() == AddAll(q0, entries, i)
        invariant Signalled == PushedAll(q0.table, L0, entries, i)
        invariant Valid()
      {
        AddEntry(q0, L0, entries, i);
      }
    }

    /** One pass of the top half's loop: entry i is added on top of the first i. */
    method AddEntry(ghost q0: Queue, ghost L0: seq<nat>, entries: seq<Entry>, i: nat)
      requires i < |entries| && IdsInRange(entries, i + 1, |q0.table|) && LinkOk(q0.table, q0.first)
      requires Valid() && pipes.Length == |q0.table|
      requires State() == AddAll(q0, entries, i) && Signalled == PushedAll(q0.table, L0, entries, i)
      requires Linked(q0, L0)
      modifies this, pipes
      ensures pipes == old(pipes) && dmaAllocTotal == old(dmaAllocTotal)
      ensures State() == AddAll(q0, entries, i + 1) && Signalled == PushedAll(q0.table, L0, entries, i + 1)
      ensures Valid()
    {
      SignalledAdd(entries[i].id, entries[i].flags);
    }

    /**
     * One pass of the bottom half's loop on a non-empty list: pop the head
     * and, unless it is closing (`stop`), deliver its events. Either way
     * the drain still to come is unchanged.
     */
    method DeliverHead() returns (stop: bool)
      requires Valid() && first != NIL
      modifies this, pipes
      ensures pipes == old(pipes) && dmaAllocTotal == old(dmaAllocTotal)
      ensures Valid() && |Signalled| < |old(Signalled)|
      ensures stop ==> State() == Drain(old(State()), old(Signalled)) && Signalled == Rest(old(State()), old(Signalled))
      ensures !stop ==> Drain(State(), Signalled) == Drain(old(State()), old(Signalled))
      ensures !stop ==> Rest(State(), Signalled) == Rest(old(State()), old(Signalled))
    {
      ghost var q := State();
      ghost var L := Signalled;
      PopSpec(q, L);
      var popped := SignalledPopFront();
      var id := popped.value.id;
      var p := pipes[id].value;
      if p.closing {
        DrainStop(q, L);
        return true;
      }
      ghost var q' := DrainRound(q, L);
      pipes[id] := Some(WakePipe(p, popped.value.wakes));
      assert State() == q';
      return false;
    }

    /**
     * goldfish_interrupt_task: pops pipes until the list is empty or a
     * closing pipe is popped, delivering each other pipe's events.
     */
    method InterruptTask()
      requires Valid()
      modifies this, pipes
      ensures pipes == old(pipes) && dmaAllocTotal == old(dmaAllocTotal)
      ensures State() == Drain(old(State()), old(Signalled))
      ensures Signalled == Rest(old(State()), old(Signalled))
      ensures Valid()
    {
      ghost var q0 := State();
      ghost var L0 := Signalled;
      while first != NIL
        invariant pipes == old(pipes) && dmaAllocTotal == old(dmaAllocTotal)
        invariant Valid()
        invariant Drain(State(), Signalled) == Drain(q0, L0)
        invariant Rest(State(), Signalled) == Rest(q0, L0)
        decreases |Signalled|
      {
        var stop := DeliverHead();
        if stop {
          return;
        }
      }
      assert Signalled == [];
    }

    /**
     * get_free_pipe_id_locked: the lowest empty slot; when every slot is
     * taken the table is doubled (`allocOk`, the kcalloc outcome; -ENOMEM
     * when it fails), the old slots copied and the old capacity returned.
     */
    method GetFreePipeId(allocOk: bool) returns (id: int)
      requires Valid()
      modifies this
      ensures first == old(first) && Signalled == old(Signalled) && dmaAllocTotal == old(dmaAllocTotal)
      ensures var t := old(pipes[..]);
        && (FreeId(t) < |t| ==> id == FreeId(t) && pipes == old(pipes))
        && (FreeId(t) == |t| && !allocOk ==> id == -ENOMEM && pipes == old(pipes))
        && (FreeId(t) == |t| && allocOk ==> id == |t| && fresh(pipes) && pipes[..] == Grown(t))
      ensures id >= 0 ==> id < pipes.Length && pipes[id].None?
      ensures Valid()
    {
      id := FindFree();
      if id < pipes.Length {
        return;
      }
      if !allocOk {
        return -ENOMEM;
      }
      id := Grow();
    }

    /** The scan of get_free_pipe_id_locked: the lowest empty slot, or the capacity when there is none. */
    method FindFree() returns (id: nat)
      ensures id == FreeId(pipes[..])
    {
      id := 0;
      while id < pipes.Length
        invariant 0 <= id <= pipes.Length
        invariant forall j :: 0 <= j < id ==> pipes[j].Some?
      {
        if pipes[id].None? {
          FreeIsLowest(pipes[..], 0, id);
          return;
        }
        id := id + 1;
      }
      FreeIsLowest(pipes[..], 0, pipes.Length);
    }

    /**
     * The reallocation of get_free_pipe_id_locked: a table of twice the
     * capacity, zeroed, with the old slots copied in; the old capacity is
     * returned as the new pipe's id.
     */
    method Grow() returns (id: nat)
      requires Valid()
      modifies this
      ensures first == old(first) && Signalled == old(Signalled) && dmaAllocTotal == old(dmaAllocTotal)
      ensures fresh(pipes) && pipes[..] == Grown(old(pipes[..])) && id == old(pipes.Length)
      ensures Valid()
    {
      var current := pipes;
      var capacity := current.Length;
      var grown := new Option<Pipe>[2 * capacity](_ => None);
      for j := 0 to capacity
        invariant unchanged(this) && unchanged(current)
        invariant forall k :: 0 <= k < j ==> grown[k] == current[k]
        invariant forall k :: j <= k < grown.Length ==> grown[k].None?
      {
        grown[j] := current[j];
      }
      assert grown[..] == Grown(current[..]);
      GrowKeepsList(State(), Signalled, seq(capacity, _ => None));
      pipes := grown;
      id := capacity;
    }

    /**
     * goldfish_pipe_open: allocate the pipe object and its command page
     * (`pipeAllocOk`, `cmdPageOk`; -ENOMEM if either fails), take a free
     * id (`idAllocOk` is the outcome of growing a full table), install the
     * new pipe and send the open command, whose status `hostStatus` the
     * host writes back. A negative status empties the slot again and is
     * returned as it is; the grown table is kept.
     */
    method Open(pipeAllocOk: bool, cmdPageOk: bool, idAllocOk: bool, hostStatus: int) returns (status: int, id: int)
      requires Valid()
      modifies this, pipes
      ensures first == old(first) && Signalled == old(Signalled) && dmaAllocTotal == old(dmaAllocTotal)
      ensures Valid()
      ensures !pipeAllocOk || !cmdPageOk ==> status == -ENOMEM && pipes == old(pipes) && pipes[..] == old(pipes[..])
      ensures var t := old(pipes[..]);
        pipeAllocOk && cmdPageOk && FreeId(t) == |t| && !idAllocOk ==>
          status == -ENOMEM && pipes == old(pipes) && pipes[..] == t
      ensures var t := old(pipes[..]);
        pipeAllocOk && cmdPageOk && (FreeId(t) < |t| || idAllocOk) ==>
          && id == FreeId(t)
          && status == (if hostStatus < 0 then hostStatus else 0)
          && pipes[..] == (if FreeId(t) < |t| then t else Grown(t))[id := if hostStatus < 0 then None else Some(NewPipe())]
      ensures status == 0 <==> pipeAllocOk && cmdPageOk && (FreeId(old(pipes[..])) < old(pipes.Length) || idAllocOk) && hostStatus >= 0
    {
      if !pipeAllocOk || !cmdPageOk {
        return -ENOMEM, NIL;
      }
      id := GetFreePipeId(idAllocOk);
      if id < 0 {
        return id, id;
      }
      status := Install(id, hostStatus);
    }

    /**
     * The second half of goldfish_pipe_open: a new pipe is stored in the
     * free slot id and the open command sent; a negative host status
     * empties the slot again and is returned.
     */
    method Install(id: nat, hostStatus: int) returns (status: int)
      requires Valid() && id < pipes.Length && pipes[id].None?
      modifies pipes
      ensures status == (if hostStatus < 0 then hostStatus else 0)
      ensures pipes[..] == old(pipes[..])[id := if hostStatus < 0 then None else Some(NewPipe())]
      ensures Valid()
    {
      ghost var t := pipes[..];
      InstallKeepsList(State(), Signalled, id, NewPipe());
      pipes[id] := Some(NewPipe());
      status := hostStatus;
      if status < 0 {
        ClearKeepsList(State(), Signalled, id);
        pipes[id] := None;
        assert pipes[..] == t[id := None];
        return;
      }
      status := 0;
    }

    /**
     * goldfish_pipe_release: the pipe is marked closing and its region
     * unlocked for the host, then it leaves the table and the signalled
     * list, and the buffer of its region, if allocated, is given back to
     * the DMA byte counter. Every other pipe keeps its state apart from
     * the links of its list neighbours.
     */
    method Release(id: nat)
      requires Valid() && id < pipes.Length && pipes[id].Some?
      modifies this, pipes
      ensures pipes == old(pipes) && pipes[id].None?
      ensures Signalled == Without(old(Signalled), id)
      ensures forall i :: 0 <= i < pipes.Length && i != id ==>
                Body(pipes[i]) == Body(old(pipes[i])) && Signals(pipes[..], i) == Signals(old(pipes[..]), i)
      ensures var d := old(pipes[id].value.dma);
        dmaAllocTotal == if d.Some? then DmaReleaseGuestLocked(d.value, old(dmaAllocTotal)) else old(dmaAllocTotal)
      ensures Valid()
    {
      ghost var t0 := pipes[..];
      var d := MarkClosing(id);
      ghost var q := State();
      RemoveSpec(q, Signalled, id);
      Unregister(id);
      ReleaseKeepsOthers(t0, q, id);
      if d.Some? {
        dmaAllocTotal := DmaReleaseGuestLocked(d.value, dmaAllocTotal);
      }
    }

    /** The middle of goldfish_pipe_release: the pipe leaves the signalled list and the table. */
    method Unregister(id: nat)
      requires Valid() && id < pipes.Length && pipes[id].Some?
      modifies this, pipes
      ensures pipes == old(pipes) && dmaAllocTotal == old(dmaAllocTotal)
      ensures pipes[..] == Remove(old(State()), id).table[id := None]
      ensures Signalled == Without(old(Signalled), id)
      ensures Valid()
    {
      SignalledRemove(id);
      WithoutDrops(old(Signalled), id);
      ClearSlot(id);
    }

    /**
     * The first step of goldfish_pipe_release: the pipe is marked closing
     * and its region, if any, is unlocked; the region is returned.
     */
    method MarkClosing(id: nat) returns (d: Option<Dma>)
      requires Valid() && id < pipes.Length && pipes[id].Some?
      modifies pipes
      ensures var p := old(pipes[id].value);
        && d == (if p.dma.Some? then Some(DmaReleaseHostLocked(p.dma.value)) else None)
        && pipes[..] == old(pipes[..])[id := Some(p.(closing := true, dma := d))]
        && (d.Some? ==> d.value.hasBuffer == p.dma.value.hasBuffer && d.value.size == p.dma.value.size)
      ensures Valid()
    {
      var p := pipes[id].value;
      d := if p.dma.Some? then Some(DmaReleaseHostLocked(p.dma.value)) else None;
      SameLinks(State(), Signalled, pipes[..][id := Some(p.(closing := true, dma := d))]);
      pipes[id] := Some(p.(closing := true, dma := d));
    }

    /** Emptying the table slot of a pipe that is not in the signalled list. */
    method ClearSlot(id: nat)
      requires Valid() && id < pipes.Length && id !in Signalled
      modifies pipes
      ensures pipes[..] == old(pipes[..])[id := None]
      ensures Valid()
    {
      ClearKeepsList(State(), Signalled, id);
      pipes[id] := None;
    }

    /** goldfish_dma_ioctl on the pipe with this id: the slot is replaced by the command's result. */
    method DmaIoctl(id: nat, cmd: IoctlCmd, copyInOk: bool, copyOutOk: bool, size: nat, allocOk: bool, w: Wait)
      returns (ret: int, off: Option<nat>)
      requires Valid() && id < pipes.Length && pipes[id].Some?
      requires cmd == IocGetOff && !pipes[id].value.closing && copyInOk ==> pipes[id].value.dma.Some?
      modifies pipes
      ensures var r := Ioctl(old(pipes[id].value), cmd, copyInOk, copyOutOk, size, allocOk, w);
        ret == r.ret && off == r.off && pipes[..] == old(pipes[..])[id := Some(r.pipe)]
      ensures Valid()
    {
      var r := Ioctl(pipes[id].value, cmd, copyInOk, copyOutOk, size, allocOk, w);
      SameLinks(State(), Signalled, pipes[..][id := Some(r.pipe)]);
      pipes[id] := Some(r.pipe);
      ret, off := r.ret, r.off;
    }

    /** goldfish_dma_mmap on the pipe with this id: the slot and the DMA byte counter take the mapping's result. */
    method DmaMmap(id: nat, size: nat, phys: nat, remapOk: bool) returns (ret: int)
      requires Valid() && id < pipes.Length && pipes[id].Some?
      requires !pipes[id].value.closing && IsPageSizeMultiple(size) ==> pipes[id].value.dma.Some?
      modifies this, pipes
      ensures pipes == old(pipes) && first == old(first) && Signalled == old(Signalled)
      ensures var r := Mmap(old(pipes[id].value), old(dmaAllocTotal), size, phys, remapOk);
        ret == r.ret && dmaAllocTotal == r.total && pipes[..] == old(pipes[..])[id := Some(r.pipe)]
      ensures Valid()
    {
      var r := Mmap(pipes[id].value, dmaAllocTotal, size, phys, remapOk);
      SameLinks(State(), Signalled, pipes[..][id := Some(r.pipe)]);
      pipes[id] := Some(r.pipe);
      dmaAllocTotal := r.total;
      ret := r.ret;
    }
  }
}
