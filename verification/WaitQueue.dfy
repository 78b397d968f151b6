/** The intrusive wait list of the wake primitives: awaiter objects, living in their
    coroutines' frames, linked through `next` in arrival order. */
module WaitQueues {
  import opened Prelude

  /** An awaiter: the coroutine it would wake, the item a producer brings, and what a
      primitive has handed to it. */
  class Waiter<T> {
    const handle: nat
    const offered: T
    var received: Option<T>
    var granted: bool
    var linked: bool
    var next: Waiter?<T>

    constructor (handle: nat, offered: T)
      ensures this.handle == handle && this.offered == offered
      ensures received == None && !granted && !linked && next == null
    {
      this.handle, this.offered := handle, offered;
      received, granted, linked, next := None, false, false, null;
    }
  }

  class WaitQueue<T> {
    var head: Waiter?<T>
    var tail: Waiter?<T>
    ghost var nodes: seq<Waiter<T>>

    /** `nodes` is the chain from `head` to `tail`. */
    ghost predicate Valid()
      reads this, nodes`next, nodes`linked
    {
      && NoDups(nodes)
      && (nodes == [] ==> head == null && tail == null)
      && (nodes != [] ==> head == nodes[0] && tail == nodes[|nodes| - 1] && nodes[|nodes| - 1].next == null)
      && (forall i {:trigger nodes[i].next} :: 0 <= i < |nodes| - 1 ==> nodes[i].next == nodes[i + 1])
      && (forall i {:trigger nodes[i].linked} :: 0 <= i < |nodes| ==> nodes[i].linked)
    }

    constructor ()
      ensures Valid() && nodes == []
    {
      head, tail := null, null;
      nodes := [];
    }

    /** A new waiter joins at the end. */
    method Append(w: Waiter<T>)
      requires Valid() && w !in nodes
      modifies this, w`next, w`linked, nodes`next
      ensures Valid() && nodes == old(nodes) + [w]
    {
      w.next := null;
      w.linked := true;
      if tail != null {
        tail.next := w;
      } else {
        head := w;
      }
      tail := w;
      nodes := nodes + [w];
    }

    /** A new waiter joins in front (`Event`, which keeps no tail, wakes the latest first). */
    method Prepend(w: Waiter<T>)
      requires Valid() && w !in nodes
      modifies this, w`next, w`linked
      ensures Valid() && nodes == [w] + old(nodes)
    {
      w.next := head;
      w.linked := true;
      if tail == null {
        tail := w;
      }
      head := w;
      nodes := [w] + nodes;
    }

    /** The first waiter leaves the list. */
    method TakeFirst() returns (w: Waiter<T>)
      requires Valid() && nodes != []
      modifies this, nodes`next, nodes`linked
      ensures Valid() && w == old(nodes)[0] && nodes == old(nodes)[1..] && !w.linked && w !in nodes
    {
      w := head;
      head := w.next;
      if head == null {
        tail := null;
      }
      w.next := null;
      w.linked := false;
      nodes := nodes[1..];
    }

    /** The loop of `Event::set`: waiter after waiter leaves, first to last. */
    method TakeAll() returns (handles: seq<nat>)
      requires Valid()
      modifies this, nodes`next, nodes`linked
      ensures Valid() && nodes == [] && handles == Handles(old(nodes))
      ensures forall w :: w in old(nodes) ==> !w.linked
    {
      handles := [];
      ghost var all, k := nodes, 0;
      while head != null
        invariant Valid() && k <= |all| && nodes == all[k..]
        invariant |handles| == k && forall i :: 0 <= i < k ==> handles[i] == all[i].handle
        invariant forall i :: 0 <= i < k ==> !all[i].linked
        decreases |all| - k
      {
        Suffix(all, k);
        var w := TakeFirst();
        handles := handles + [w.handle];
        k := k + 1;
      }
      assert handles == Handles(all);
    }

    /** Links the neighbours of `p`, the waiter at `i`, to each other. */
    method Bypass(prev: Waiter?<T>, p: Waiter<T>, ghost i: nat)
      requires Valid() && i < |nodes| && p == nodes[i]
      requires prev == if i == 0 then null else nodes[i - 1]
      modifies this, nodes`next
      ensures Valid() && nodes == RemoveAt(old(nodes), i) && p !in nodes
      ensures forall v :: v in nodes ==> v in old(nodes)
    {
      if prev != null {
        prev.next := p.next;
      } else {
        head := p.next;
      }
      if tail == p {
        tail := prev;
      }
      nodes := RemoveAt(nodes, i);
    }

    /** Takes the linked waiter `w` out of the list, wherever it stands. */
    method Unlink(w: Waiter<T>) returns (ghost i: nat)
      requires Valid() && w in nodes
      modifies this, nodes`next, nodes`linked
      ensures Valid() && !w.linked && w !in nodes
      ensures forall v :: v in nodes ==> v in old(nodes)
      ensures i < |old(nodes)| && old(nodes)[i] == w && nodes == RemoveAt(old(nodes), i)
    {
      var prev: Waiter?<T> := null;
      var p := head;
      i := 0;
      while p != null && p != w
        invariant 0 <= i <= |nodes|
        invariant p == if i < |nodes| then nodes[i] else null
        invariant prev == if i == 0 then null else nodes[i - 1]
        invariant w !in nodes[..i]
        decreases |nodes| - i
      {
        prev := p;
        p := p.next;
        i := i + 1;
      }
      Bypass(prev, p, i);
      w.next := null;
      w.linked := false;
    }
  }

  lemma Suffix<T>(q: seq<T>, k: nat)
    requires k < |q| && NoDups(q)
    ensures q[k..][0] == q[k] && q[k..][1..] == q[k + 1..]
    ensures forall v :: v in q[k..] ==> v in q
    ensures forall i :: 0 <= i < k ==> q[i] !in q[k..]
  {
  }

  /** The coroutines waiting, first come first. */
  ghost function Handles<T>(q: seq<Waiter<T>>): (r: seq<nat>)
    ensures |r| == |q| && forall i :: 0 <= i < |q| ==> r[i] == q[i].handle
  {
    if q == [] then [] else [q[0].handle] + Handles(q[1..])
  }

  ghost predicate DistinctHandles<T>(q: seq<Waiter<T>>)
  {
    NoDups(Handles(q))
  }

  lemma HandlesRemoved<T>(q: seq<Waiter<T>>, i: nat)
    requires i < |q|
    ensures Handles(RemoveAt(q, i)) == RemoveAt(Handles(q), i)
  {
    var l, r := Handles(RemoveAt(q, i)), RemoveAt(Handles(q), i);
    forall k | 0 <= k < |l|
      ensures l[k] == r[k]
    {
      RemovedAt(q, i, k);
      RemovedAt(Handles(q), i, k);
    }
  }

  lemma HandlesWithout<T>(q: seq<Waiter<T>>, i: nat)
    requires i < |q| && DistinctHandles(q)
    ensures Handles(RemoveAt(q, i)) == Without(Handles(q), {q[i].handle})
    ensures NoDups(Without(Handles(q), {q[i].handle}))
  {
    WithoutNoDups(Handles(q), {q[i].handle});
    DropAt(Handles(q), i);
    HandlesRemoved(q, i);
  }
}
