/** The dispatcher's bounded ready ring: posting, and removing every copy of a handle in one
    rotation of the ring. */
module Dispatchers {
  import opened Prelude

  type Handle = nat
  const NULL: Handle := 0

  class Dispatcher {
    const capacity: nat
    var queue: seq<Handle>
    var dropped: nat
    var highWater: nat

    ghost predicate Valid()
      reads this
    {
      |queue| <= capacity && highWater <= capacity && NULL !in queue
    }

    constructor (capacity: nat)
      ensures Valid() && queue == [] && dropped == 0 && highWater == 0 && this.capacity == capacity
    {
      this.capacity := capacity;
      queue, dropped, highWater := [], 0, 0;
    }

    /** A full ring refuses and counts; the null handle is refused without counting. */
    method Post(h: Handle) returns (ok: bool)
      requires Valid()
      modifies this
      ensures Valid() && ok == (h != NULL && |old(queue)| < capacity)
      ensures queue == if ok then old(queue) + [h] else old(queue)
      ensures dropped == if !ok && h != NULL then old(dropped) + 1 else old(dropped)
      ensures highWater == if ok && |queue| > old(highWater) then |queue| else old(highWater)
    {
      if h == NULL {
        return false;
      }
      if |queue| == capacity {
        dropped := dropped + 1;
        return false;
      }
      queue := queue + [h];
      if |queue| > highWater {
        highWater := |queue|;
      }
      return true;
    }

    /** One turn of the ring: every copy of `h` leaves, the others come round in their order. */
    method Purge(h: Handle) returns (removed: nat)
      requires Valid()
      modifies this`queue
      ensures Valid() && queue == Without(old(queue), {h})
      ensures removed == multiset(old(queue))[h]
    {
      removed := 0;
      if h == NULL {
        WithoutAbsent(queue, {h});
        return;
      }
      ghost var was := queue;
      var n := |queue|;
      var i := 0;
      while i < n && queue != []
        invariant 0 <= i <= n
        invariant queue == was[i..] + Without(was[..i], {h})
        invariant removed == i - |Without(was[..i], {h})|
      {
        var x := queue[0];
        Turned(was, i, h, queue);
        queue := queue[1..];
        if x == h {
          removed := removed + 1;
        } else {
          queue := queue + [x];
        }
        i := i + 1;
      }
      assert was[..n] == was && was[n..] == [];
      CopiesGone(was, h);
    }
  }

  lemma {:induction false} CopiesGone(q: seq<Handle>, h: Handle)
    ensures multiset(q)[h] == |q| - |Without(q, {h})|
  {
    if q != [] {
      CopiesGone(q[1..], h);
      assert q == [q[0]] + q[1..];
    }
  }

  /** One step of the turn: the front handle leaves or goes to the back. */
  lemma Turned(was: seq<Handle>, i: nat, h: Handle, queue: seq<Handle>)
    requires i < |was| && queue == was[i..] + Without(was[..i], {h})
    ensures |queue| > 0 && queue[0] == was[i]
    ensures |Without(was[..i + 1], {h})| == |Without(was[..i], {h})| + if was[i] == h then 0 else 1
    ensures was[i + 1..] + Without(was[..i + 1], {h}) == if was[i] == h then queue[1..] else queue[1..] + [was[i]]
  {
    var x, done := was[i], Without(was[..i], {h});
    assert was[i..] == [x] + was[i + 1..];
    assert queue[1..] == was[i + 1..] + done;
    assert was[..i + 1] == was[..i] + [x];
    WithoutConcat(was[..i], [x], {h});
    assert [x][1..] == [] && Without([x], {h}) == if x == h then [] else [x];
    assert was[i + 1..] + (done + [x]) == was[i + 1..] + done + [x];
  }
}
