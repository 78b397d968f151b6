/** The bounded queue between coroutines: producers block on a full buffer, consumers on an
    empty one, an arriving item goes straight to the first blocked consumer, and a freed
    slot takes the first blocked producer's item. */
module AsyncQueues {
  import opened Prelude
  import opened Rings
  import opened WaitQueues

  /** A blocked producer and the item it brings. */
  datatype Offer<T> = Offer(h: nat, item: T)

  datatype QueueState<T> = QueueState(buf: seq<T>, pushers: seq<Offer<T>>, poppers: seq<nat>)

  /** `push_or_hand_off`: accepted or not, the new state, and the consumer handed the item. */
  function PutSpec<T>(s: QueueState<T>, cap: nat, v: T): (bool, QueueState<T>, Option<nat>) {
    if s.poppers != [] then (true, s.(poppers := s.poppers[1..]), Some(s.poppers[0]))
    else if |s.buf| >= cap then (false, s, None)
    else (true, s.(buf := s.buf + [v]), None)
  }

  /** `try_pop`: the item if any, the new state, and the producer whose item moved in. */
  function TakeSpec<T>(s: QueueState<T>): (Option<T>, QueueState<T>, Option<nat>) {
    if s.buf == [] then (None, s, None)
    else if s.pushers == [] then (Some(s.buf[0]), s.(buf := s.buf[1..]), None)
    else (Some(s.buf[0]),
          s.(buf := s.buf[1..] + [s.pushers[0].item], pushers := s.pushers[1..]),
          Some(s.pushers[0].h))
  }

  ghost function Offers<T>(q: seq<Waiter<T>>): (r: seq<Offer<T>>)
    ensures |r| == |q| && forall i :: 0 <= i < |q| ==> r[i] == Offer(q[i].handle, q[i].offered)
  {
    if q == [] then [] else [Offer(q[0].handle, q[0].offered)] + Offers(q[1..])
  }

  const REJECTED_MODULUS: nat := 0x1_0000_0000

  class AsyncQueue<T(0)> {
    const modulus: nat  // how many values `size_t` has
    const buffer: array<T>
    var head: nat
    var tail: nat
    var rejected: nat
    const poppers: WaitQueue<T>
    const pushers: WaitQueue<T>

    ghost predicate RingOk()
      reads this`head, this`tail
    {
      && 0 < buffer.Length < modulus && modulus % buffer.Length == 0
      && head < modulus && tail < modulus && Diff(head, tail, modulus) <= buffer.Length
    }

    /** The two wait lists are well formed and share no awaiter. */
    ghost predicate ListsOk()
      reads poppers, pushers, poppers.nodes`next, poppers.nodes`linked, pushers.nodes`next, pushers.nodes`linked
    {
      && poppers.Valid() && pushers.Valid() && poppers != pushers
      && (forall i, j :: 0 <= i < |poppers.nodes| && 0 <= j < |pushers.nodes| ==> poppers.nodes[i] != pushers.nodes[j])
    }

    ghost predicate Valid()
      reads this`head, this`tail, poppers, pushers
      reads poppers.nodes`next, poppers.nodes`linked, pushers.nodes`next, pushers.nodes`linked
    {
      RingOk() && ListsOk()
    }

    /** The stored items, oldest first. */
    ghost function Stored(): seq<T>
      requires RingOk()
      reads this`head, this`tail, buffer
    {
      Window(buffer[..], tail, Diff(head, tail, modulus))
    }

    ghost function View(): QueueState<T>
      requires RingOk()
      reads this`head, this`tail, buffer, poppers`nodes, pushers`nodes
    {
      QueueState(Stored(), Offers(pushers.nodes), Handles(poppers.nodes))
    }

    constructor (capacity: nat, modulus: nat)
      requires 0 < capacity < modulus && modulus % capacity == 0
      ensures Valid() && View() == QueueState([], [], []) && buffer.Length == capacity && rejected == 0
      ensures fresh(buffer) && fresh(poppers) && fresh(pushers)
    {
      this.modulus := modulus;
      buffer := new T[capacity];
      head, tail, rejected := 0, 0, 0;
      poppers := new WaitQueue<T>();
      pushers := new WaitQueue<T>();
      new;
      DiffSucc(0, 0, modulus);
    }

    /** Writes `v` behind the stored items. */
    method Store(v: T)
      requires RingOk() && Diff(head, tail, modulus) < buffer.Length
      modifies this`head, buffer
      ensures RingOk() && Stored() == old(Stored()) + [v]
    {
      DiffSucc(head, tail, modulus);
      DiffSlot(head, tail, modulus, buffer.Length);
      ghost var n, at := Diff(head, tail, modulus), head % buffer.Length;
      ghost var b := buffer[..];
      WindowStore(b, tail, n, at, v);
      buffer[head % buffer.Length] := v;
      head := Succ(head, modulus);
      assert buffer[..] == b[at := v];
    }

    /** Takes the oldest stored item out. */
    method Load() returns (v: T)
      requires RingOk() && Diff(head, tail, modulus) > 0
      modifies this`tail
      ensures RingOk() && old(Stored()) == [v] + Stored() && Diff(head, tail, modulus) < buffer.Length
    {
      DiffSucc(head, tail, modulus);
      WindowDrop(buffer[..], tail, Diff(head, tail, modulus), modulus);
      v := buffer[tail % buffer.Length];
      tail := Succ(tail, modulus);
    }

    /** A slot is free: the first blocked producer's item moves in. */
    method MoveIn() returns (h: nat)
      requires Valid() && pushers.nodes != [] && Diff(head, tail, modulus) < buffer.Length
      modifies this`head, buffer, pushers, pushers.nodes`next, pushers.nodes`linked
      ensures Valid()
      ensures var s := old(View());
        && View() == s.(buf := s.buf + [s.pushers[0].item], pushers := s.pushers[1..])
        && h == s.pushers[0].h
    {
      var p := pushers.TakeFirst();
      Store(p.offered);
      h := p.handle;
    }

    /** The first blocked consumer leaves with the item. */
    method HandOff(v: T) returns (h: nat)
      requires Valid() && poppers.nodes != []
      modifies poppers, poppers.nodes`next, poppers.nodes`linked, poppers.nodes`received
      ensures Valid()
      ensures View() == old(View()).(poppers := old(View()).poppers[1..]) && h == old(View()).poppers[0]
      ensures old(poppers.nodes)[0].received == Some(v) && old(poppers.nodes)[0].handle == h
    {
      var c := poppers.TakeFirst();
      c.received := Some(v);
      h := c.handle;
    }

    /** The item joins the stored ones if there is room. */
    method StoreIfRoom(v: T) returns (ok: bool)
      requires Valid()
      modifies this`head, buffer
      ensures Valid() && ok == (|old(View()).buf| < buffer.Length)
      ensures View() == if ok then old(View()).(buf := old(View()).buf + [v]) else old(View())
    {
      ok := Diff(head, tail, modulus) < buffer.Length;
      if ok {
        Store(v);
      }
    }

    method PushOrHandOff(v: T) returns (ok: bool, posted: Option<nat>)
      requires Valid()
      modifies this`head, buffer, poppers, poppers.nodes`next, poppers.nodes`linked, poppers.nodes`received
      ensures Valid() && (ok, View(), posted) == PutSpec(old(View()), buffer.Length, v)
      ensures posted.Some? ==> old(poppers.nodes)[0].received == Some(v) && old(poppers.nodes)[0].handle == posted.value
    {
      if poppers.head != null {
        var h := HandOff(v);
        return true, Some(h);
      }
      ok := StoreIfRoom(v);
      posted := None;
    }

    method TryPush(v: T) returns (ok: bool, posted: Option<nat>)
      requires Valid() && rejected < REJECTED_MODULUS
      modifies this`head, this`rejected, buffer, poppers, poppers.nodes`next, poppers.nodes`linked,
          poppers.nodes`received
      ensures Valid() && (ok, View(), posted) == PutSpec(old(View()), buffer.Length, v)
      ensures rejected == if ok then old(rejected) else (old(rejected) + 1) % REJECTED_MODULUS
    {
      ok, posted := PushOrHandOff(v);
      if !ok {
        rejected := (rejected + 1) % REJECTED_MODULUS;
      }
    }

    method TryPop() returns (out: Option<T>, posted: Option<nat>)
      requires Valid()
      modifies this`head, this`tail, buffer, pushers, pushers.nodes`next, pushers.nodes`linked
      ensures Valid() && (out, View(), posted) == TakeSpec(old(View()))
      ensures out == None ==> pushers.nodes == old(pushers.nodes)
    {
      DiffSucc(head, tail, modulus);
      if head == tail {
        return None, None;
      }
      var v := Load();
      if pushers.head == null {
        return Some(v), None;
      }
      var h := MoveIn();
      return Some(v), Some(h);
    }

    /** A consumer that found the queue empty blocks. */
    method BlockPopper(w: Waiter<T>)
      requires Valid() && w !in poppers.nodes && w !in pushers.nodes
      modifies poppers, w`next, w`linked, poppers.nodes`next
      ensures Valid() && View() == old(View()).(poppers := old(View()).poppers + [w.handle])
    {
      poppers.Append(w);
    }

    /** A producer that found the queue full blocks with its item. */
    method BlockPusher(w: Waiter<T>)
      requires Valid() && w !in poppers.nodes && w !in pushers.nodes
      modifies pushers, w`next, w`linked, pushers.nodes`next
      ensures Valid() && View() == old(View()).(pushers := old(View()).pushers + [Offer(w.handle, w.offered)])
    {
      pushers.Append(w);
    }

    /** `co_await push(...)`: the item goes in at once, or its producer blocks with it. */
    method Push(w: Waiter<T>) returns (passed: bool, posted: Option<nat>)
      requires Valid() && w !in poppers.nodes && w !in pushers.nodes
      modifies this`head, buffer, poppers, poppers.nodes`next, poppers.nodes`linked, poppers.nodes`received
      modifies pushers, w`next, w`linked, pushers.nodes`next
      ensures Valid()
      ensures var (ok, t, handed) := PutSpec(old(View()), buffer.Length, w.offered);
        && passed == ok && posted == handed
        && View() == if ok then t else t.(pushers := t.pushers + [Offer(w.handle, w.offered)])
    {
      passed, posted := PushOrHandOff(w.offered);
      if !passed {
        BlockPusher(w);
      }
    }

    /** `co_await pop()`: the oldest item at once, or the consumer blocks. */
    method Pop(w: Waiter<T>) returns (out: Option<T>, posted: Option<nat>)
      requires Valid() && w !in poppers.nodes && w !in pushers.nodes
      modifies this`head, this`tail, buffer, pushers, pushers.nodes`next, pushers.nodes`linked
      modifies poppers, w`next, w`linked, poppers.nodes`next
      ensures Valid()
      ensures var (o, t, woken) := TakeSpec(old(View()));
        && out == o && posted == woken
        && View() == if o.Some? then t else t.(poppers := t.poppers + [w.handle])
    {
      out, posted := TryPop();
      if out == None {
        BlockPopper(w);
      }
    }

    /** A consumer's awaiter is destroyed: if it still waits it leaves the list. */
    method DestroyPopper(w: Waiter<T>) returns (ghost i: nat)
      requires Valid() && (w.linked <==> w in poppers.nodes)
      modifies poppers, poppers.nodes`next, poppers.nodes`linked
      ensures Valid() && w !in poppers.nodes
      ensures !old(w.linked) ==> View() == old(View())
      ensures old(w.linked) ==>
        var s := old(View());
        i < |s.poppers| && s.poppers[i] == w.handle && View() == s.(poppers := RemoveAt(s.poppers, i))
    {
      i := 0;
      if w.linked {
        ghost var q := poppers.nodes;
        i := poppers.Unlink(w);
        assert ListsOk() by {
          StillApart(q, pushers.nodes, i);
        }
        HandlesRemoved(q, i);
      }
    }

    /** A producer's awaiter is destroyed: if it still waits its item goes with it. */
    method DestroyPusher(w: Waiter<T>) returns (ghost i: nat)
      requires Valid() && (w.linked <==> w in pushers.nodes)
      modifies pushers, pushers.nodes`next, pushers.nodes`linked
      ensures Valid() && w !in pushers.nodes
      ensures !old(w.linked) ==> View() == old(View())
      ensures old(w.linked) ==>
        var s := old(View());
        i < |s.pushers| && s.pushers[i].h == w.handle && View() == s.(pushers := RemoveAt(s.pushers, i))
    {
      i := 0;
      if w.linked {
        ghost var q := pushers.nodes;
        i := pushers.Unlink(w);
        assert ListsOk() by {
          StillApart(q, poppers.nodes, i);
        }
        OffersRemoved(q, i);
      }
    }
  }

  lemma StillApart<T>(a: seq<Waiter<T>>, b: seq<Waiter<T>>, i: nat)
    requires i < |a| && forall j, k :: 0 <= j < |a| && 0 <= k < |b| ==> a[j] != b[k]
    ensures forall j, k :: 0 <= j < |a| - 1 && 0 <= k < |b| ==> RemoveAt(a, i)[j] != b[k]
  {
  }

  lemma OffersRemoved<T>(q: seq<Waiter<T>>, i: nat)
    requires i < |q|
    ensures Offers(RemoveAt(q, i)) == RemoveAt(Offers(q), i)
  {
    var l, r := Offers(RemoveAt(q, i)), RemoveAt(Offers(q), i);
    forall k | 0 <= k < |l|
      ensures l[k] == r[k]
    {
      RemovedAt(q, i, k);
      RemovedAt(Offers(q), i, k);
    }
  }
}
