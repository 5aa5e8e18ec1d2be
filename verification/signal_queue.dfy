/**
 * The device's list of signalled pipes: an intrusive doubly linked list
 * threaded through the pipes' prev/next links, headed by
 * first_signalled_pipe (signalled_pipes_add_locked,
 * signalled_pipes_remove_locked, signalled_pipes_pop_front), the top
 * half that feeds it and the bottom half that drains it.
 *
 * The pipe table is a sequence of optional pipes indexed by id; links are
 * ids, NIL for a null pointer. The functions here take and return the
 * whole table; the device class applies them in place.
 */
module SignalQueue {
  import opened PipeAbi
  import opened Wrappers
  import opened PipeState

  type Table = seq<Option<Pipe>>

  /** The pipe table with the head of the signalled list. */
  datatype Queue = Queue(table: Table, first: int)

  /** x is a null link or the id of a pipe in the table. */
  predicate LinkOk(t: Table, x: int)
  {
    x == NIL || (0 <= x < |t| && t[x].Some?)
  }

  /** The id before position k of L, NIL at the head. */
  function Before(L: seq<nat>, k: nat): int
    requires k < |L|
  {
    if k == 0 then NIL else L[k - 1]
  }

  /** The id after position k of L, NIL at the tail. */
  function After(L: seq<nat>, k: nat): int
    requires k < |L|
  {
    if k == |L| - 1 then NIL else L[k + 1]
  }

  /**
   * The list of q is exactly L, head first: L holds distinct ids of
   * pipes in the table, the head is L[0] (NIL for an empty list), each
   * member links to its neighbours in L, the end links are NIL, and every
   * pipe outside the list has NIL links.
   */
  ghost predicate Linked(q: Queue, L: seq<nat>)
  {
    var t := q.table;
    && (forall k :: 0 <= k < |L| ==> L[k] < |t| && t[L[k]].Some?)
    && (forall j, k :: 0 <= j < k < |L| ==> L[j] != L[k])
    && q.first == (if |L| == 0 then NIL else L[0])
    && (forall k :: 0 <= k < |L| ==> t[L[k]].value.prev == Before(L, k))
    && (forall k :: 0 <= k < |L| ==> t[L[k]].value.next == After(L, k))
    && (forall i :: 0 <= i < |t| && t[i].Some? && i !in L ==> t[i].value.prev == NIL && t[i].value.next == NIL)
  }

  /** A table slot with its list links and pending events erased: what list operations never change. */
  function Body(o: Option<Pipe>): Option<Pipe>
  {
    if o.Some? then Some(o.value.(signalledFlags := {}, prev := NIL, next := NIL)) else None
  }

  /** The pending events of slot i (none for an empty slot). */
  function Signals(t: Table, i: nat): set<nat>
    requires i < |t|
  {
    if t[i].Some? then t[i].value.signalledFlags else {}
  }

  /** t' has the same slots as t except for links and pending events. */
  predicate SameBodies(t: Table, t': Table)
  {
    |t'| == |t| && forall i :: 0 <= i < |t| ==> Body(t'[i]) == Body(t[i])
  }

  /**
   * The test signalled_pipes_add_locked uses for "already in the list":
   * a link is set or the pipe is the head.
   */
  predicate InList(q: Queue, id: nat)
    requires id < |q.table| && q.table[id].Some?
  {
    q.table[id].value.prev != NIL || q.table[id].value.next != NIL || q.first == id
  }

  /** On a well-linked list the driver's membership test is exact. */
  lemma InListIff(q: Queue, L: seq<nat>, id: nat)
    requires Linked(q, L) && id < |q.table| && q.table[id].Some?
    ensures InList(q, id) <==> id in L
  {
    if id in L {
      var k :| 0 <= k < |L| && L[k] == id;
      if k > 0 {
        assert q.table[id].value.prev == L[k - 1];
      }
    }
  }

  /**
   * signalled_pipes_add_locked: an empty slot drops the event; otherwise
   * the flags are OR'ed into the pending events and a pipe not yet in the
   * list is pushed at its head.
   */
  function Add(q: Queue, id: nat, flags: set<nat>): (r: Queue)
    requires id < |q.table| && LinkOk(q.table, q.first)
    ensures |r.table| == |q.table| && LinkOk(r.table, r.first)
    ensures forall i :: 0 <= i < |q.table| ==> (r.table[i].Some? <==> q.table[i].Some?)
  {
    if q.table[id].None? then q
    else
      var p := q.table[id].value.(signalledFlags := q.table[id].value.signalledFlags + flags);
      var t1 := q.table[id := Some(p)];
      if InList(q, id) then Queue(t1, q.first)
      else
        var t2 := t1[id := Some(p.(next := q.first))];
        if q.first != NIL then Queue(t2[q.first := Some(t2[q.first].value.(prev := id))], id)
        else Queue(t2, id)
  }

  /** The list after adding id: unchanged for an empty slot or a listed pipe, else id in front. */
  function Pushed(t: Table, L: seq<nat>, id: nat): seq<nat>
    requires id < |t|
  {
    if t[id].None? || id in L then L else [id] + L
  }

  /**
   * Adding keeps the list well linked, with the pipe at the head when it
   * was not listed (LIFO order), ORs the flags into that pipe's pending
   * events only, and changes nothing else.
   */
  lemma AddSpec(q: Queue, L: seq<nat>, id: nat, flags: set<nat>)
    requires Linked(q, L) && id < |q.table|
    ensures Linked(Add(q, id, flags), Pushed(q.table, L, id))
  {
    var t := q.table;
    var r := Add(q, id, flags);
    if t[id].Some? {
      InListIff(q, L, id);
      var p := t[id].value.(signalledFlags := t[id].value.signalledFlags + flags);
      var t1 := t[id := Some(p)];
      if id in L {
        assert r == Queue(t1, q.first);
        SameLinks(q, L, t1);
      } else {
        var t2 := t1[id := Some(p.(next := q.first))];
        if q.first != NIL {
          assert q.first != id;
          var t3 := t2[q.first := Some(t2[q.first].value.(prev := id))];
          assert r == Queue(t3, id);
          PushFront(q, L, id, t3);
        } else {
          assert r == Queue(t2, id);
          PushFront(q, L, id, t2);
        }
      }
    }
  }

  /**
   * Adding ORs the flags into that pipe's pending events only and changes
   * nothing but links and pending events.
   */
  lemma AddSignals(q: Queue, id: nat, flags: set<nat>)
    requires id < |q.table| && LinkOk(q.table, q.first)
    ensures var r := Add(q, id, flags);
      && SameBodies(q.table, r.table)
      && (forall i :: 0 <= i < |q.table| ==>
            Signals(r.table, i) == if i == id && q.table[i].Some? then Signals(q.table, i) + flags else Signals(q.table, i))
  {
    var t := q.table;
    var r := Add(q, id, flags);
    if t[id].Some? {
      forall i | 0 <= i < |t|
        ensures Body(r.table[i]) == Body(t[i])
        ensures Signals(r.table, i) == if i == id then Signals(t, i) + flags else Signals(t, i)
      {
        if i == id {
          assert r.table[i].value.signalledFlags == t[i].value.signalledFlags + flags;
        } else if i == q.first && !InList(q, id) {
          assert r.table[i] == Some(t[i].value.(prev := id));
        } else {
          assert r.table[i] == t[i];
        }
      }
    }
  }

  /** Changing pipes but not their links or the head keeps the list. */
  lemma SameLinks(q: Queue, L: seq<nat>, t': Table)
    requires Linked(q, L) && |t'| == |q.table|
    requires forall i :: 0 <= i < |t'| ==> (t'[i].Some? <==> q.table[i].Some?)
    requires forall i :: 0 <= i < |t'| && t'[i].Some? ==>
               t'[i].value.prev == q.table[i].value.prev && t'[i].value.next == q.table[i].value.next
    ensures Linked(Queue(t', q.first), L)
  {
  }

  /**
   * Linking an unlisted pipe in front of the head, and changing nothing
   * else but the old head's back link, gives the list with the pipe first.
   */
  lemma PushFront(q: Queue, L: seq<nat>, id: nat, t': Table)
    requires Linked(q, L) && id < |q.table| && q.table[id].Some? && id !in L
    requires |t'| == |q.table|
    requires forall i :: 0 <= i < |t'| ==> (t'[i].Some? <==> q.table[i].Some?)
    requires t'[id].value.prev == NIL && t'[id].value.next == q.first
    requires |L| > 0 ==> t'[L[0]].value.prev == id && t'[L[0]].value.next == q.table[L[0]].value.next
    requires forall i :: 0 <= i < |t'| && i != id && i != q.first && t'[i].Some? ==>
               t'[i].value.prev == q.table[i].value.prev && t'[i].value.next == q.table[i].value.next
    ensures Linked(Queue(t', id), [id] + L)
  {
    PushFrontMembers(q, L, id, t');
    PushFrontOthers(q, L, id, t');
  }

  /** PushFront for the members of the new list: in the table, distinct, linked to their neighbours. */
  lemma PushFrontMembers(q: Queue, L: seq<nat>, id: nat, t': Table)
    requires Linked(q, L) && id < |q.table| && q.table[id].Some? && id !in L
    requires |t'| == |q.table|
    requires forall i :: 0 <= i < |t'| ==> (t'[i].Some? <==> q.table[i].Some?)
    requires t'[id].value.prev == NIL && t'[id].value.next == q.first
    requires |L| > 0 ==> t'[L[0]].value.prev == id && t'[L[0]].value.next == q.table[L[0]].value.next
    requires forall i :: 0 <= i < |t'| && i != id && i != q.first && t'[i].Some? ==>
               t'[i].value.prev == q.table[i].value.prev && t'[i].value.next == q.table[i].value.next
    ensures var L' := [id] + L;
      && (forall k :: 0 <= k < |L'| ==> L'[k] < |t'| && t'[L'[k]].Some?)
      && (forall k :: 0 <= k < |L'| ==> t'[L'[k]].value.prev == Before(L', k))
      && (forall k :: 0 <= k < |L'| ==> t'[L'[k]].value.next == After(L', k))
      && (forall j, k :: 0 <= j < k < |L'| ==> L'[j] != L'[k])
  {
    var L' := [id] + L;
    var t := q.table;
    forall k | 0 <= k < |L'|
      ensures L'[k] < |t'| && t'[L'[k]].Some?
      ensures t'[L'[k]].value.prev == Before(L', k)
      ensures t'[L'[k]].value.next == After(L', k)
    {
      if k == 0 {
        assert L'[k] == id;
        assert After(L', k) == q.first;
      } else {
        var x := L[k - 1];
        assert L'[k] == x && x != id;
        assert t[x].value.next == After(L, k - 1);
        assert After(L', k) == After(L, k - 1);
        if k == 1 {
          assert x == q.first;
        } else {
          assert x != q.first;
        }
      }
    }
    forall j, k | 0 <= j < k < |L'|
      ensures L'[j] != L'[k]
    {
      assert L'[k] == L[k - 1];
      if j > 0 {
        assert L'[j] == L[j - 1];
      }
    }
  }

  /** PushFront for the pipes outside the new list: their links stay NIL. */
  lemma PushFrontOthers(q: Queue, L: seq<nat>, id: nat, t': Table)
    requires Linked(q, L) && id < |q.table| && q.table[id].Some? && id !in L
    requires |t'| == |q.table|
    requires forall i :: 0 <= i < |t'| ==> (t'[i].Some? <==> q.table[i].Some?)
    requires t'[id].value.prev == NIL && t'[id].value.next == q.first
    requires |L| > 0 ==> t'[L[0]].value.prev == id && t'[L[0]].value.next == q.table[L[0]].value.next
    requires forall i :: 0 <= i < |t'| && i != id && i != q.first && t'[i].Some? ==>
               t'[i].value.prev == q.table[i].value.prev && t'[i].value.next == q.table[i].value.next
    ensures forall i :: 0 <= i < |t'| && t'[i].Some? && i !in [id] + L ==> t'[i].value.prev == NIL && t'[i].value.next == NIL
  {
    forall i | 0 <= i < |t'| && t'[i].Some? && i !in [id] + L
      ensures t'[i].value.prev == NIL && t'[i].value.next == NIL
    {
      assert i != id && i !in L && i != q.first;
    }
  }

  /** A popped pipe and the events it had pending. */
  datatype Popped = Popped(id: nat, wakes: set<nat>)

  datatype PopResult = PopResult(queue: Queue, popped: Option<Popped>)

  /**
   * signalled_pipes_pop_front: an empty list gives nothing; otherwise the
   * head's pending events are reported and cleared, its next pipe becomes
   * the head with a null back link, and the head's next link is nulled.
   */
  function PopFront(q: Queue): (r: PopResult)
    requires LinkOk(q.table, q.first)
    requires q.first != NIL ==> LinkOk(q.table, q.table[q.first].value.next)
    ensures |r.queue.table| == |q.table|
    ensures forall i :: 0 <= i < |q.table| ==> (r.queue.table[i].Some? <==> q.table[i].Some?)
    ensures q.first == NIL <==> r.popped.None?
  {
    if q.first == NIL then PopResult(q, None)
    else
      var p := q.table[q.first].value;
      var t1 := q.table[q.first := Some(p.(signalledFlags := {}, next := NIL))];
      var t2 := if p.next != NIL then t1[p.next := Some(t1[p.next].value.(prev := NIL))] else t1;
      PopResult(Queue(t2, p.next), Some(Popped(q.first, p.signalledFlags)))
  }

  /**
   * Taking the head off a well-linked list, with nothing else changed but
   * the head's links and the new head's back link, leaves the rest linked.
   */
  lemma DropFront(q: Queue, L: seq<nat>, t': Table)
    requires Linked(q, L) && |L| > 0
    requires |t'| == |q.table|
    requires forall i :: 0 <= i < |t'| ==> (t'[i].Some? <==> q.table[i].Some?)
    requires t'[L[0]].value.prev == NIL && t'[L[0]].value.next == NIL
    requires |L| > 1 ==> t'[L[1]].value.prev == NIL && t'[L[1]].value.next == q.table[L[1]].value.next
    requires forall i :: 0 <= i < |t'| && i != L[0] && (|L| == 1 || i != L[1]) && t'[i].Some? ==>
               t'[i].value.prev == q.table[i].value.prev && t'[i].value.next == q.table[i].value.next
    ensures Linked(Queue(t', After(L, 0)), L[1..])
  {
    var L' := L[1..];
    var t := q.table;
    forall k | 0 <= k < |L'|
      ensures L'[k] < |t'| && t'[L'[k]].Some?
      ensures t'[L'[k]].value.prev == Before(L', k)
      ensures t'[L'[k]].value.next == After(L', k)
    {
      var x := L[k + 1];
      assert L'[k] == x && x != L[0];
      assert t[x].value.next == After(L, k + 1);
      assert After(L', k) == After(L, k + 1);
      if k > 0 {
        assert x != L[1];
        assert t[x].value.prev == Before(L, k + 1);
      }
    }
    forall i | 0 <= i < |t'| && t'[i].Some? && i !in L'
      ensures t'[i].value.prev == NIL && t'[i].value.next == NIL
    {
      if i != L[0] {
        assert i !in L;
      }
    }
    forall j, k | 0 <= j < k < |L'|
      ensures L'[j] != L'[k]
    {
      assert L'[j] == L[j + 1] && L'[k] == L[k + 1];
    }
  }

  /**
   * Popping a well-linked list reports its head with the head's pending
   * events and leaves the rest of the list, in order; only the popped
   * pipe's pending events change (to none) and no pipe's body changes.
   */
  lemma PopSpec(q: Queue, L: seq<nat>)
    requires Linked(q, L)
    ensures LinkOk(q.table, q.first) && (q.first != NIL ==> LinkOk(q.table, q.table[q.first].value.next))
    ensures var r := PopFront(q);
      && (|L| == 0 ==> r == PopResult(q, None))
      && (|L| > 0 ==>
            && r.popped == Some(Popped(L[0], Signals(q.table, L[0])))
            && Linked(r.queue, L[1..])
            && SameBodies(q.table, r.queue.table)
            && forall i :: 0 <= i < |q.table| ==>
                 Signals(r.queue.table, i) == if i == L[0] then {} else Signals(q.table, i))
  {
    if |L| > 0 {
      var t := q.table;
      var h := L[0];
      var p := t[h].value;
      assert p.next == After(L, 0);
      if |L| > 1 {
        assert p.next == L[1] && L[1] != h;
      }
      var t1 := t[h := Some(p.(signalledFlags := {}, next := NIL))];
      var t2 := if p.next != NIL then t1[p.next := Some(t1[p.next].value.(prev := NIL))] else t1;
      assert PopFront(q) == PopResult(Queue(t2, p.next), Some(Popped(h, p.signalledFlags)));
      DropFront(q, L, t2);
      forall i | 0 <= i < |t|
        ensures Body(t2[i]) == Body(t[i])
        ensures Signals(t2, i) == if i == h then {} else Signals(t, i)
      {
        if i == h {
          assert t2[i] == Some(p.(signalledFlags := {}, next := NIL));
        } else if p.next != NIL && i == p.next {
          assert t2[i] == Some(t[i].value.(prev := NIL));
        } else {
          assert t2[i] == t[i];
        }
      }
    }
  }

  /**
   * signalled_pipes_remove_locked: the pipe's neighbours are linked to
   * each other, the head moves on if the pipe was the head, and the
   * pipe's own links are nulled.
   */
  function Remove(q: Queue, id: nat): (r: Queue)
    requires id < |q.table| && q.table[id].Some?
    requires LinkOk(q.table, q.table[id].value.prev) && LinkOk(q.table, q.table[id].value.next)
    ensures |r.table| == |q.table|
    ensures forall i :: 0 <= i < |q.table| ==> (r.table[i].Some? <==> q.table[i].Some?)
    ensures r.table[id].value.prev == NIL && r.table[id].value.next == NIL
  {
    var p := q.table[id].value;
    var t1 := if p.prev != NIL then q.table[p.prev := Some(q.table[p.prev].value.(next := p.next))] else q.table;
    var t2 := if p.next != NIL then t1[p.next := Some(t1[p.next].value.(prev := p.prev))] else t1;
    var first := if id == q.first then p.next else q.first;
    Queue(t2[id := Some(t2[id].value.(prev := NIL, next := NIL))], first)
  }

  /** The position of x in L. */
  function IndexOf(L: seq<nat>, x: nat): (k: nat)
    requires x in L
    ensures k < |L| && L[k] == x
    ensures forall j :: 0 <= j < k ==> L[j] != x
  {
    if L[0] == x then 0 else 1 + IndexOf(L[1..], x)
  }

  /** L with position k cut out. */
  function Cut(L: seq<nat>, k: nat): (r: seq<nat>)
    requires k < |L|
    ensures |r| == |L| - 1
    ensures forall j :: 0 <= j < k ==> r[j] == L[j]
    ensures forall j :: k <= j < |r| ==> r[j] == L[j + 1]
  {
    L[..k] + L[k + 1..]
  }

  /** L without x. */
  function Without(L: seq<nat>, x: nat): seq<nat>
  {
    if x in L then Cut(L, IndexOf(L, x)) else L
  }

  /** Cutting a position out of a list of distinct ids keeps them distinct and drops exactly that id. */
  lemma CutDistinct(L: seq<nat>, k: nat)
    requires k < |L| && forall a, b :: 0 <= a < b < |L| ==> L[a] != L[b]
    ensures var L' := Cut(L, k);
      && (forall a, b :: 0 <= a < b < |L'| ==> L'[a] != L'[b])
      && (forall i :: i in L' <==> i in L && i != L[k])
  {
    var L' := Cut(L, k);
    forall a, b | 0 <= a < b < |L'|
      ensures L'[a] != L'[b]
    {
      var a' := if a < k then a else a + 1;
      var b' := if b < k then b else b + 1;
      assert L'[a] == L[a'] && L'[b] == L[b'] && a' < b';
    }
    forall i
      ensures i in L' <==> i in L && i != L[k]
    {
      if i in L' {
        var m :| 0 <= m < |L'| && L'[m] == i;
        if m < k {
          assert L[m] == i;
        } else {
          assert L[m + 1] == i;
        }
      }
      if i in L && i != L[k] {
        var m :| 0 <= m < |L| && L[m] == i;
        if m < k {
          assert L'[m] == i;
        } else {
          assert L'[m - 1] == i;
        }
      }
    }
  }

  /** The premises of Unlink: t' is q's table with the member at position k unlinked. */
  ghost predicate Unlinked(q: Queue, L: seq<nat>, k: nat, t': Table)
    requires Linked(q, L) && k < |L|
  {
    && |t'| == |q.table|
    && (forall i :: 0 <= i < |t'| ==> (t'[i].Some? <==> q.table[i].Some?))
    && t'[L[k]].Some? && t'[L[k]].value.prev == NIL && t'[L[k]].value.next == NIL
    && (k > 0 ==> t'[L[k - 1]].value.next == After(L, k) && t'[L[k - 1]].value.prev == q.table[L[k - 1]].value.prev)
    && (k < |L| - 1 ==> t'[L[k + 1]].value.prev == Before(L, k) && t'[L[k + 1]].value.next == q.table[L[k + 1]].value.next)
    && (forall i :: 0 <= i < |t'| && i != L[k] && (k == 0 || i != L[k - 1]) && (k == |L| - 1 || i != L[k + 1]) && t'[i].Some? ==>
          t'[i].value.prev == q.table[i].value.prev && t'[i].value.next == q.table[i].value.next)
  }

  /** After unlinking, the members before the cut keep their links but the last one's, which skips the cut. */
  lemma UnlinkBefore(q: Queue, L: seq<nat>, k: nat, t': Table, j: nat)
    requires Linked(q, L) && k < |L| && Unlinked(q, L, k, t') && j < k
    ensures var L' := Cut(L, k);
      t'[L'[j]].Some? && t'[L'[j]].value.prev == Before(L', j) && t'[L'[j]].value.next == After(L', j)
  {
    var L' := Cut(L, k);
    var x := L[j];
    assert L'[j] == x && x != L[k];
    assert q.table[x].value.prev == Before(L, j) && q.table[x].value.next == After(L, j);
    assert Before(L', j) == Before(L, j);
    if j == k - 1 {
      assert After(L', j) == After(L, k);
    } else {
      assert x != L[k - 1] && After(L', j) == After(L, j);
      if k < |L| - 1 {
        assert x != L[k + 1];
      }
    }
  }

  /** After unlinking, the members after the cut keep their links but the first one's, which skips the cut. */
  lemma UnlinkAfter(q: Queue, L: seq<nat>, k: nat, t': Table, j: nat)
    requires Linked(q, L) && k < |L| && Unlinked(q, L, k, t') && k <= j < |L| - 1
    ensures var L' := Cut(L, k);
      t'[L'[j]].Some? && t'[L'[j]].value.prev == Before(L', j) && t'[L'[j]].value.next == After(L', j)
  {
    var L' := Cut(L, k);
    var x := L[j + 1];
    assert L'[j] == x && x != L[k];
    assert q.table[x].value.prev == Before(L, j + 1) && q.table[x].value.next == After(L, j + 1);
    assert After(L', j) == After(L, j + 1);
    if j == k {
      assert Before(L', j) == Before(L, k);
    } else {
      assert x != L[k + 1] && Before(L', j) == Before(L, j + 1);
      if k > 0 {
        assert x != L[k - 1];
      }
    }
  }

  /**
   * Unlinking the member at position k of a well-linked list, with its
   * neighbours joined to each other and nothing else changed, leaves the
   * list without it.
   */
  lemma Unlink(q: Queue, L: seq<nat>, k: nat, t': Table)
    requires Linked(q, L) && k < |L| && Unlinked(q, L, k, t')
    ensures Linked(Queue(t', if k == 0 then After(L, 0) else q.first), Cut(L, k))
  {
    var L' := Cut(L, k);
    CutDistinct(L, k);
    forall j | 0 <= j < |L'|
      ensures L'[j] < |t'| && t'[L'[j]].Some?
      ensures t'[L'[j]].value.prev == Before(L', j)
      ensures t'[L'[j]].value.next == After(L', j)
    {
      if j < k {
        UnlinkBefore(q, L, k, t', j);
      } else {
        UnlinkAfter(q, L, k, t', j);
      }
    }
    forall i | 0 <= i < |t'| && t'[i].Some? && i !in L'
      ensures t'[i].value.prev == NIL && t'[i].value.next == NIL
    {
      if i != L[k] {
        assert i !in L;
      }
    }
  }

  /**
   * Removing a pipe from a well-linked list leaves the list without it
   * (the list is unchanged for a pipe not in it) and the pipe unlinked.
   */
  lemma RemoveSpec(q: Queue, L: seq<nat>, id: nat)
    requires Linked(q, L) && id < |q.table| && q.table[id].Some?
    ensures LinkOk(q.table, q.table[id].value.prev) && LinkOk(q.table, q.table[id].value.next)
    ensures Linked(Remove(q, id), Without(L, id))
  {
    var t := q.table;
    var p := t[id].value;
    var r := Remove(q, id);
    if id in L {
      var k := IndexOf(L, id);
      assert p.prev == Before(L, k) && p.next == After(L, k);
      if k > 0 {
        assert L[k - 1] != id;
      }
      if k < |L| - 1 {
        assert L[k + 1] != id;
      }
      if k > 0 && k < |L| - 1 {
        assert L[k - 1] != L[k + 1];
      }
      assert r.first == if k == 0 then After(L, 0) else q.first;
      assert Unlinked(q, L, k, r.table);
      Unlink(q, L, k, r.table);
    } else {
      assert p.prev == NIL && p.next == NIL && q.first != id;
      assert r == Queue(t[id := Some(p)], q.first);
      assert t[id := Some(p)] == t;
    }
  }

  /** Removing changes only links: every pipe's body and pending events stay as they were. */
  lemma RemoveSignals(q: Queue, id: nat)
    requires id < |q.table| && q.table[id].Some?
    requires LinkOk(q.table, q.table[id].value.prev) && LinkOk(q.table, q.table[id].value.next)
    ensures var r := Remove(q, id);
      && SameBodies(q.table, r.table)
      && forall i :: 0 <= i < |q.table| ==> Signals(r.table, i) == Signals(q.table, i)
  {
    var t := q.table;
    var p := t[id].value;
    var r := Remove(q, id);
    forall i | 0 <= i < |t|
      ensures Body(r.table[i]) == Body(t[i]) && Signals(r.table, i) == Signals(t, i)
    {
      if i == id {
      } else if i == p.prev || i == p.next {
        assert r.table[i].value.signalledFlags == t[i].value.signalledFlags;
        assert r.table[i].value.(prev := NIL, next := NIL) == t[i].value.(prev := NIL, next := NIL);
      } else {
        assert r.table[i] == t[i];
      }
    }
  }

  /** WakePipe touches neither links nor pending events, so it commutes with erasing them. */
  lemma WakeBody(p: Pipe, p': Pipe, wakes: set<nat>)
    requires Body(Some(p)) == Body(Some(p'))
    ensures Body(Some(WakePipe(p, wakes))) == Body(Some(WakePipe(p', wakes)))
    ensures WakePipe(p, wakes).prev == p.prev && WakePipe(p, wakes).next == p.next
    ensures WakePipe(p, wakes).signalledFlags == p.signalledFlags
  {
    assert p.(signalledFlags := {}, prev := NIL, next := NIL) == p'.(signalledFlags := {}, prev := NIL, next := NIL);
    assert p.closing == p'.closing && p.dma == p'.dma && p.flags == p'.flags;
  }

  /** The position of the first closing pipe of L, or |L| when there is none. */
  function StopIndex(t: Table, L: seq<nat>): (k: nat)
    requires forall k :: 0 <= k < |L| ==> L[k] < |t| && t[L[k]].Some?
    ensures k <= |L|
    ensures forall j :: 0 <= j < k ==> !t[L[j]].value.closing
    ensures k < |L| ==> t[L[k]].value.closing
  {
    if |L| == 0 then 0
    else if t[L[0]].value.closing then 0
    else 1 + StopIndex(t, L[1..])
  }

  /** The pipe table with one pipe replaced by its bottom-half update. */
  function WakeAt(q: Queue, id: nat, wakes: set<nat>): (r: Queue)
    requires id < |q.table| && q.table[id].Some?
    ensures |r.table| == |q.table| && r.first == q.first
  {
    Queue(q.table[id := Some(WakePipe(q.table[id].value, wakes))], q.first)
  }

  /**
   * goldfish_interrupt_task: pop pipes off the list until it is empty;
   * a closing pipe ends the drain at once, leaving the rest of the list
   * queued; every other popped pipe gets its events delivered by WakePipe.
   */
  function Drain(q: Queue, L: seq<nat>): (r: Queue)
    requires Linked(q, L)
    ensures |r.table| == |q.table|
    decreases |L|
  {
    if |L| == 0 then q
    else
      PopSpec(q, L);
      var pr := PopFront(q);
      var id := pr.popped.value.id;
      if pr.queue.table[id].value.closing then pr.queue
      else
        var q' := WakeAt(pr.queue, id, pr.popped.value.wakes);
        WakeBody(pr.queue.table[id].value, pr.queue.table[id].value, pr.popped.value.wakes);
        SameLinks(pr.queue, L[1..], q'.table);
        Drain(q', L[1..])
  }

  /** The queue after one round of a drain that pops the head of L and delivers its events. */
  function Delivered(q: Queue, L: seq<nat>): (r: Queue)
    requires Linked(q, L) && |L| > 0
    ensures |r.table| == |q.table| && r.first == After(L, 0)
  {
    PopSpec(q, L);
    WakeAt(PopFront(q).queue, L[0], Signals(q.table, L[0]))
  }

  /** Pipes whose closing flag is the same in two tables stop a drain at the same place. */
  lemma {:induction false} StopIndexSame(t: Table, t': Table, L: seq<nat>)
    requires forall k :: 0 <= k < |L| ==> L[k] < |t| && t[L[k]].Some?
    requires forall k :: 0 <= k < |L| ==> L[k] < |t'| && t'[L[k]].Some? && t'[L[k]].value.closing == t[L[k]].value.closing
    ensures StopIndex(t, L) == StopIndex(t', L)
  {
    if |L| > 0 && !t[L[0]].value.closing {
      StopIndexSame(t, t', L[1..]);
    }
  }

  /** The pipes a drain that stops at position k pops: those before k and the closing one at k. */
  function Taken(L: seq<nat>, k: nat): (r: seq<nat>)
    requires k <= |L|
    ensures r == L[..if k < |L| then k + 1 else k]
  {
    if k < |L| then L[..k + 1] else L
  }

  /** What is left of the list L after a drain: the pipes after the first closing one. */
  ghost function Rest(q: Queue, L: seq<nat>): seq<nat>
    requires Linked(q, L)
  {
    L[|Taken(L, StopIndex(q.table, L))|..]
  }

  /**
   * One round of a drain that does not stop: the popped head is updated
   * and its events cleared, nothing else changes but links, and the drain
   * goes on with the rest of the list.
   */
  lemma DrainStep(q: Queue, L: seq<nat>) returns (q': Queue)
    requires Linked(q, L) && |L| > 0 && !q.table[L[0]].value.closing
    ensures q' == Delivered(q, L)
    ensures Linked(q', L[1..]) && |q'.table| == |q.table|
    ensures Drain(q, L) == Drain(q', L[1..])
    ensures StopIndex(q.table, L) == 1 + StopIndex(q'.table, L[1..])
    ensures Body(q'.table[L[0]]) == Body(Some(WakePipe(q.table[L[0]].value, Signals(q.table, L[0]))))
    ensures Signals(q'.table, L[0]) == {}
    ensures forall i :: 0 <= i < |q.table| && i != L[0] ==>
              Body(q'.table[i]) == Body(q.table[i]) && Signals(q'.table, i) == Signals(q.table, i)
  {
    q' := Delivered(q, L);
    DeliveredLinked(q, L);
    DeliveredStop(q, L);
    DeliveredBodies(q, L);
  }

  /** DrainStep for the links: the delivered queue holds the rest of the list and the drain goes on from it. */
  lemma DeliveredLinked(q: Queue, L: seq<nat>)
    requires Linked(q, L) && |L| > 0 && !q.table[L[0]].value.closing
    ensures Linked(Delivered(q, L), L[1..])
    ensures Drain(q, L) == Drain(Delivered(q, L), L[1..])
  {
    PopSpec(q, L);
    var pr := PopFront(q);
    var t1 := pr.queue.table;
    var h := L[0];
    var w := Signals(q.table, h);
    assert pr.popped.value == Popped(h, w);
    var q' := WakeAt(pr.queue, h, w);
    WakeBody(t1[h].value, t1[h].value, w);
    SameLinks(pr.queue, L[1..], q'.table);
  }

  /** DrainStep for the stopping place: it moves one position on. */
  lemma DeliveredStop(q: Queue, L: seq<nat>)
    requires Linked(q, L) && |L| > 0 && !q.table[L[0]].value.closing
    ensures var q' := Delivered(q, L);
      (forall k :: 0 <= k < |L[1..]| ==> L[1..][k] < |q'.table| && q'.table[L[1..][k]].Some?)
      && StopIndex(q.table, L) == 1 + StopIndex(q'.table, L[1..])
  {
    var t := q.table;
    PopSpec(q, L);
    var pr := PopFront(q);
    var t1 := pr.queue.table;
    var h := L[0];
    var w := Signals(t, h);
    var q' := WakeAt(pr.queue, h, w);
    var L1 := L[1..];
    WakeBody(t1[h].value, t[h].value, w);
    assert forall j :: 0 <= j < |L1| ==> L1[j] == L[j + 1] && L1[j] != h;
    StopIndexSame(t, q'.table, L1);
  }

  /** DrainStep for the pipes: the head is updated and its events cleared, the others keep theirs. */
  lemma DeliveredBodies(q: Queue, L: seq<nat>)
    requires Linked(q, L) && |L| > 0 && !q.table[L[0]].value.closing
    ensures var q' := Delivered(q, L);
      && |q'.table| == |q.table|
      && Body(q'.table[L[0]]) == Body(Some(WakePipe(q.table[L[0]].value, Signals(q.table, L[0]))))
      && Signals(q'.table, L[0]) == {}
      && forall i :: 0 <= i < |q.table| && i != L[0] ==>
           Body(q'.table[i]) == Body(q.table[i]) && Signals(q'.table, i) == Signals(q.table, i)
  {
    var t := q.table;
    PopSpec(q, L);
    var pr := PopFront(q);
    var t1 := pr.queue.table;
    var h := L[0];
    var w := Signals(t, h);
    WakeBody(t1[h].value, t[h].value, w);
    WakeBody(t1[h].value, t1[h].value, w);
  }

  /**
   * One round of a drain that does not stop, as the bottom half performs
   * it: pop the head, then update the popped pipe in the popped table.
   */
  lemma DrainRound(q: Queue, L: seq<nat>) returns (q': Queue)
    requires Linked(q, L) && |L| > 0 && !q.table[L[0]].value.closing
    ensures LinkOk(q.table, q.first) && (q.first != NIL ==> LinkOk(q.table, q.table[q.first].value.next))
    ensures var pr := PopFront(q);
      && pr.popped.Some? && pr.popped.value.id == L[0] && pr.popped.value.id < |pr.queue.table|
      && pr.queue.table[L[0]].Some?
      && q' == Queue(pr.queue.table[L[0] := Some(WakePipe(pr.queue.table[L[0]].value, pr.popped.value.wakes))], pr.queue.first)
    ensures Linked(q', L[1..])
    ensures Drain(q, L) == Drain(q', L[1..])
    ensures Rest(q, L) == Rest(q', L[1..])
  {
    PopSpec(q, L);
    q' := DrainStep(q, L);
    TakenStep(L, StopIndex(q'.table, L[1..]));
  }

  /** A drain that meets a closing head pops it and stops. */
  lemma DrainStop(q: Queue, L: seq<nat>)
    requires Linked(q, L) && |L| > 0 && q.table[L[0]].value.closing
    ensures StopIndex(q.table, L) == 0 && Taken(L, 0) == [L[0]] && Rest(q, L) == L[1..]
    ensures Drain(q, L) == PopFront(q).queue
  {
    PopSpec(q, L);
  }

  /** Taking one more pipe off the front. */
  lemma TakenStep(L: seq<nat>, k': nat)
    requires 0 < |L| && k' <= |L| - 1
    ensures Taken(L, k' + 1) == [L[0]] + Taken(L[1..], k')
    ensures L[|Taken(L, k' + 1)|..] == L[1..][|Taken(L[1..], k')|..]
    ensures L[..k' + 1] == [L[0]] + L[1..][..k']
  {
  }

  /**
   * A drain of a well-linked list leaves the list of the pipes after the
   * first closing one, in order (empty when no pipe is closing).
   */
  lemma {:induction false} DrainList(q: Queue, L: seq<nat>)
    requires Linked(q, L)
    ensures Linked(Drain(q, L), Rest(q, L))
    decreases |L|
  {
    if |L| == 0 {
      assert Drain(q, L) == q;
    } else if q.table[L[0]].value.closing {
      DrainStop(q, L);
      PopSpec(q, L);
    } else {
      var q' := DrainStep(q, L);
      DrainList(q', L[1..]);
      TakenStep(L, StopIndex(q'.table, L[1..]));
    }
  }

  /** The head of a list of distinct ids is not among the pipes popped after it. */
  lemma HeadNotTaken(L: seq<nat>, k': nat)
    requires 0 < |L| && k' <= |L| - 1
    requires forall a, b :: 0 <= a < b < |L| ==> L[a] != L[b]
    ensures L[0] !in Taken(L[1..], k') && L[0] !in L[1..][..k']
  {
    var L1 := L[1..];
    forall x | x in Taken(L1, k') || x in L1[..k']
      ensures x != L[0]
    {
      var m :| 0 <= m < |L1| && L1[m] == x;
      assert L[m + 1] == x;
    }
  }

  /**
   * A drain delivers the pending events of each pipe popped before the
   * first closing one: its new body is its WakePipe update.
   */
  lemma {:induction false} DrainWakes(q: Queue, L: seq<nat>)
    requires Linked(q, L)
    ensures var r := Drain(q, L);
      var t := q.table;
      forall j :: 0 <= j < StopIndex(t, L) ==>
        Body(r.table[L[j]]) == Body(Some(WakePipe(t[L[j]].value, Signals(t, L[j]))))
    decreases |L|
  {
    if |L| > 0 && !q.table[L[0]].value.closing {
      var t := q.table;
      var q' := DrainStep(q, L);
      var L1 := L[1..];
      DrainWakes(q', L1);
      var k' := StopIndex(q'.table, L1);
      HeadNotTaken(L, k');
      DrainPipes(q', L1);
      var r := Drain(q', L1);
      forall j | 0 <= j < k' + 1
        ensures Body(r.table[L[j]]) == Body(Some(WakePipe(t[L[j]].value, Signals(t, L[j]))))
      {
        if j > 0 {
          var x := L[j];
          assert x == L1[j - 1] && x != L[0];
          WakeBody(q'.table[x].value, t[x].value, Signals(t, x));
        }
      }
    }
  }

  /** A drain leaves every pipe it does not update as it was, but for links and pending events. */
  lemma {:induction false} DrainPipes(q: Queue, L: seq<nat>)
    requires Linked(q, L)
    ensures var r := Drain(q, L);
      forall i :: 0 <= i < |q.table| && i !in L[..StopIndex(q.table, L)] ==> Body(r.table[i]) == Body(q.table[i])
    decreases |L|
  {
    if |L| == 0 {
      assert Drain(q, L) == q;
    } else if q.table[L[0]].value.closing {
      DrainStop(q, L);
      PopSpec(q, L);
    } else {
      var q' := DrainStep(q, L);
      var L1 := L[1..];
      DrainPipes(q', L1);
      var k' := StopIndex(q'.table, L1);
      TakenStep(L, k');
      HeadNotTaken(L, k');
    }
  }

  /** A drain that stops at once clears the pending events of the popped head only. */
  lemma DrainSignalsStop(q: Queue, L: seq<nat>)
    requires Linked(q, L) && |L| > 0 && q.table[L[0]].value.closing
    ensures var r := Drain(q, L);
      forall i :: 0 <= i < |q.table| ==>
        Signals(r.table, i) == if i in Taken(L, StopIndex(q.table, L)) then {} else Signals(q.table, i)
  {
    DrainStop(q, L);
    PopSpec(q, L);
  }

  /**
   * A drain clears the pending events of exactly the pipes it popped:
   * those before the first closing pipe and the closing pipe itself.
   */
  lemma {:induction false} DrainSignals(q: Queue, L: seq<nat>)
    requires Linked(q, L)
    ensures var r := Drain(q, L);
      forall i :: 0 <= i < |q.table| ==>
        Signals(r.table, i) == if i in Taken(L, StopIndex(q.table, L)) then {} else Signals(q.table, i)
    decreases |L|
  {
    if |L| == 0 {
      assert Drain(q, L) == q;
    } else if q.table[L[0]].value.closing {
      DrainSignalsStop(q, L);
    } else {
      var q' := Delivered(q, L);
      DeliveredLinked(q, L);
      DrainSignals(q', L[1..]);
      DrainSignalsStep(q, L);
    }
  }

  /** The step of DrainSignals: what the drain from the delivered queue clears, plus the head. */
  lemma DrainSignalsStep(q: Queue, L: seq<nat>)
    requires Linked(q, L) && |L| > 0 && !q.table[L[0]].value.closing
    requires Linked(Delivered(q, L), L[1..])
    requires var q' := Delivered(q, L);
      var r := Drain(q', L[1..]);
      forall i :: 0 <= i < |q'.table| ==>
        Signals(r.table, i) == if i in Taken(L[1..], StopIndex(q'.table, L[1..])) then {} else Signals(q'.table, i)
    ensures var r := Drain(q, L);
      forall i :: 0 <= i < |q.table| ==>
        Signals(r.table, i) == if i in Taken(L, StopIndex(q.table, L)) then {} else Signals(q.table, i)
  {
    var q' := DrainStep(q, L);
    var L1 := L[1..];
    var k' := StopIndex(q'.table, L1);
    TakenStep(L, k');
    HeadNotTaken(L, k');
    var r := Drain(q', L1);
    var T := Taken(L, StopIndex(q.table, L));
    var T' := Taken(L1, k');
    assert T == [L[0]] + T';
    forall i | 0 <= i < |q.table|
      ensures Signals(r.table, i) == if i in T then {} else Signals(q.table, i)
    {
      if i == L[0] {
        assert i !in T' && i in T;
      } else {
        assert (i in T <==> i in T') && Signals(q'.table, i) == Signals(q.table, i);
      }
    }
  }

  /** One entry of the host's signalled-pipe buffer: a pipe id and its events. */
  datatype Entry = Entry(id: nat, flags: set<nat>)

  /** The first n entries have ids inside the table (the top half BUGs otherwise). */
  predicate IdsInRange(es: seq<Entry>, n: nat, size: nat)
  {
    n <= |es| && forall j :: 0 <= j < n ==> es[j].id < size
  }

  /** The queue after signalled_pipes_add_locked for the first n entries, in order. */
  function AddAll(q: Queue, es: seq<Entry>, n: nat): (r: Queue)
    requires IdsInRange(es, n, |q.table|) && LinkOk(q.table, q.first)
    ensures |r.table| == |q.table| && LinkOk(r.table, r.first)
    ensures forall i :: 0 <= i < |q.table| ==> (r.table[i].Some? <==> q.table[i].Some?)
  {
    if n == 0 then q
    else Add(AddAll(q, es, n - 1), es[n - 1].id, es[n - 1].flags)
  }

  /** The list after the first n entries are added to L. */
  function PushedAll(t: Table, L: seq<nat>, es: seq<Entry>, n: nat): seq<nat>
    requires IdsInRange(es, n, |t|)
  {
    if n == 0 then L else Pushed(t, PushedAll(t, L, es, n - 1), es[n - 1].id)
  }

  /** The union of the events the first n entries report for pipe i. */
  function EventsFor(es: seq<Entry>, n: nat, i: nat): set<nat>
    requires n <= |es|
  {
    if n == 0 then {}
    else EventsFor(es, n - 1, i) + (if es[n - 1].id == i then es[n - 1].flags else {})
  }

  /**
   * Adding the first n entries changes no body and gives each live pipe
   * the union of its old pending events and every event reported for it;
   * empty slots stay without events.
   */
  lemma {:induction false} AddAllSignals(q: Queue, es: seq<Entry>, n: nat)
    requires LinkOk(q.table, q.first) && IdsInRange(es, n, |q.table|)
    ensures var r := AddAll(q, es, n);
      && SameBodies(q.table, r.table)
      && forall i :: 0 <= i < |q.table| ==>
           Signals(r.table, i) == if q.table[i].Some? then Signals(q.table, i) + EventsFor(es, n, i) else {}
  {
    if n > 0 {
      AddAllSignals(q, es, n - 1);
      var q1 := AddAll(q, es, n - 1);
      var e := es[n - 1];
      AddSignals(q1, e.id, e.flags);
    }
  }

  /** Every live pipe named by one of the first n entries is in the list afterwards. */
  lemma {:induction false} AddAllListsSignalled(t: Table, L: seq<nat>, es: seq<Entry>, n: nat)
    requires IdsInRange(es, n, |t|)
    ensures forall x :: x in L ==> x in PushedAll(t, L, es, n)
    ensures forall j :: 0 <= j < n && t[es[j].id].Some? ==> es[j].id in PushedAll(t, L, es, n)
  {
    if n > 0 {
      AddAllListsSignalled(t, L, es, n - 1);
    }
  }

  /** Storing an unlinked pipe in an empty slot keeps the list. */
  lemma InstallKeepsList(q: Queue, L: seq<nat>, id: nat, p: Pipe)
    requires Linked(q, L) && id < |q.table| && q.table[id].None?
    requires p.prev == NIL && p.next == NIL
    ensures Linked(Queue(q.table[id := Some(p)], q.first), L)
  {
    assert id !in L;
  }

  /** Emptying the slot of an unlisted pipe keeps the list. */
  lemma ClearKeepsList(q: Queue, L: seq<nat>, id: nat)
    requires Linked(q, L) && id < |q.table| && id !in L
    ensures Linked(Queue(q.table[id := None], q.first), L)
  {
  }

  /** Appending empty slots to the table keeps the list. */
  lemma GrowKeepsList(q: Queue, L: seq<nat>, extra: Table)
    requires Linked(q, L) && forall i :: 0 <= i < |extra| ==> extra[i].None?
    ensures Linked(Queue(q.table + extra, q.first), L)
  {
    var t' := q.table + extra;
    assert forall i :: 0 <= i < |q.table| ==> t'[i] == q.table[i];
  }

  /** Without(L, x) holds the members of a list of distinct ids other than x. */
  lemma WithoutDrops(L: seq<nat>, x: nat)
    requires forall a, b :: 0 <= a < b < |L| ==> L[a] != L[b]
    ensures forall y :: y in Without(L, x) <==> y in L && y != x
    ensures forall a, b :: 0 <= a < b < |Without(L, x)| ==> Without(L, x)[a] != Without(L, x)[b]
  {
    if x in L {
      CutDistinct(L, IndexOf(L, x));
    }
  }
}
