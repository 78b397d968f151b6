/** The single-producer single-consumer ring: its operations as methods, and the two threads
    as a step system with loads, copies and stores apart. */
module SpscRings {
  import opened Prelude
  import opened Rings

  class SpscRingBuffer<T(0)> {
    const modulus: nat
    const buffer: array<T>
    var head: nat  // advanced by pop
    var tail: nat  // advanced by push

    ghost predicate Valid()
      reads this
    {
      && 0 < buffer.Length < modulus && modulus % buffer.Length == 0
      && head < modulus && tail < modulus && Diff(tail, head, modulus) <= buffer.Length
    }

    ghost function Contents(): seq<T>
      requires Valid()
      reads this, buffer
    {
      Window(buffer[..], head, Diff(tail, head, modulus))
    }

    constructor (capacity: nat, modulus: nat)
      requires 0 < capacity < modulus && modulus % capacity == 0
      ensures Valid() && Contents() == [] && buffer.Length == capacity && this.modulus == modulus && fresh(buffer)
    {
      this.modulus := modulus;
      buffer := new T[capacity];
      head, tail := 0, 0;
      new;
      DiffSucc(0, 0, modulus);
    }

    /** Refused exactly when the ring holds as many items as it has slots. */
    method Push(item: T) returns (ok: bool)
      requires Valid()
      modifies this`tail, buffer
      ensures Valid() && ok == (|old(Contents())| < buffer.Length)
      ensures Contents() == if ok then old(Contents()) + [item] else old(Contents())
    {
      DiffSucc(tail, head, modulus);
      if Diff(tail, head, modulus) >= buffer.Length {
        return false;
      }
      ghost var b, n := buffer[..], Diff(tail, head, modulus);
      DiffSlot(tail, head, modulus, buffer.Length);
      WindowStore(b, head, n, tail % buffer.Length, item);
      buffer[tail % buffer.Length] := item;
      assert buffer[..] == b[tail % buffer.Length := item];
      tail := Succ(tail, modulus);
      return true;
    }

    /** Nothing exactly when the ring is empty. */
    method Pop() returns (r: Option<T>)
      requires Valid()
      modifies this`head
      ensures Valid()
      ensures old(Contents()) == [] ==> r == None && Contents() == []
      ensures old(Contents()) != [] ==> r.Some? && old(Contents()) == [r.value] + Contents()
    {
      DiffSucc(tail, head, modulus);
      if head == tail {
        return None;
      }
      WindowDrop(buffer[..], head, Diff(tail, head, modulus), modulus);
      r := Some(buffer[head % buffer.Length]);
      head := Succ(head, modulus);
    }

    method Size() returns (n: nat)
      requires Valid()
      ensures n == |Contents()|
    {
      n := Diff(tail, head, modulus);
    }
  }

  /** The rings of a channel array, each with its own producer. */
  ghost predicate ChannelsOk<T(0)>(rings: seq<SpscRingBuffer<T>>)
    reads rings
  {
    && (forall i :: 0 <= i < |rings| ==> rings[i].Valid())
    && (forall i, j :: 0 <= i < j < |rings| ==> rings[i] != rings[j])
  }

  ghost function Tagged<T>(ch: nat, q: seq<T>): (r: seq<(nat, T)>)
    ensures |r| == |q|
  {
    seq(|q|, i requires 0 <= i < |q| => (ch, q[i]))
  }

  /** What one channel holds, each item with the channel's number. */
  ghost function ChannelItems<T(0)>(rings: seq<SpscRingBuffer<T>>, ch: nat): seq<(nat, T)>
    requires ch < |rings| && rings[ch].Valid()
    reads rings, set r | r in rings :: r.buffer
  {
    Tagged(ch, rings[ch].Contents())
  }

  /** What the channels below `n` hold, channel by channel. */
  ghost function AllItems<T(0)>(rings: seq<SpscRingBuffer<T>>, n: nat): seq<(nat, T)>
    requires n <= |rings| && ChannelsOk(rings)
    reads rings, set r | r in rings :: r.buffer
  {
    if n == 0 then [] else AllItems(rings, n - 1) + ChannelItems(rings, n - 1)
  }

  /** Empties one channel into the handler, here a log of what it was called with. */
  method DrainChannel<T(0)>(ring: SpscRingBuffer<T>, ch: nat, log: seq<(nat, T)>) returns (calls: seq<(nat, T)>)
    requires ring.Valid()
    modifies ring`head
    ensures ring.Valid() && ring.Contents() == []
    ensures calls == log + Tagged(ch, old(ring.Contents()))
  {
    calls := log;
    ghost var all := ring.Contents();
    ghost var n := 0;
    while true
      invariant ring.Valid() && 0 <= n <= |all| && ring.Contents() == all[n..]
      invariant calls == log + Tagged(ch, all[..n])
      decreases |all| - n
    {
      var r := ring.Pop();
      if r == None {
        assert all[..n] == all;
        break;
      }
      assert all[..n + 1] == all[..n] + [r.value];
      assert Tagged(ch, all[..n + 1]) == Tagged(ch, all[..n]) + [(ch, r.value)];
      calls := calls + [(ch, r.value)];
      n := n + 1;
    }
  }

  /** `drain_all`: channel after channel, every item once, in each channel's order. */
  method DrainAll<T(0)>(rings: seq<SpscRingBuffer<T>>) returns (calls: seq<(nat, T)>, processed: nat)
    requires ChannelsOk(rings)
    modifies rings`head
    ensures ChannelsOk(rings) && forall i :: 0 <= i < |rings| ==> rings[i].Contents() == []
    ensures calls == old(AllItems(rings, |rings|)) && processed == |calls|
  {
    calls := [];
    for ch := 0 to |rings|
      invariant ChannelsOk(rings)
      invariant forall i :: 0 <= i < ch ==> rings[i].Contents() == []
      invariant forall i :: ch <= i < |rings| ==> rings[i].head == old(rings[i].head)
      invariant calls == old(AllItems(rings, ch))
    {
      assert rings[ch].Contents() == old(rings[ch].Contents());
      calls := DrainChannel(rings[ch], ch, calls);
    }
    processed := |calls|;
  }
}
