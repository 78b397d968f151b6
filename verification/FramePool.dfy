/** The static frame pool: a bump allocator whose freed frames go on an intrusive list, the
    link stored in the dead frame, and are reused for the next frame of the same size. */
module FramePools {
  import opened Prelude
  import opened Rings

  const ALIGN: nat := 64

  /** `coro_frame_size` in arithmetic modulo `m`; `header` is the size of a free-list link. */
  function FrameSize(sz: nat, m: nat, header: nat): nat
    requires m > 0
  {
    var up := (sz + (ALIGN - 1)) % m;
    var aligned := up - up % ALIGN;
    if aligned < header then header else aligned
  }

  /** Every frame is a whole number of 64-byte units large enough for the request exactly when
      the request is not empty and rounding it up does not overflow. */
  lemma FrameSizeExact(sz: nat, m: nat, header: nat)
    requires m > ALIGN && m % ALIGN == 0 && sz < m && 0 < header < ALIGN
    ensures 0 < sz <= m - ALIGN <==> FrameSize(sz, m, header) % ALIGN == 0 && FrameSize(sz, m, header) >= sz
    ensures 0 < sz <= m - ALIGN ==> sz <= FrameSize(sz, m, header) < sz + ALIGN
  {
    var up := (sz + (ALIGN - 1)) % m;
    if sz <= m - ALIGN {
      DivUnique(sz + (ALIGN - 1), m, 0, sz + (ALIGN - 1));
    } else {
      DivUnique(sz + (ALIGN - 1), m, 1, sz + (ALIGN - 1) - m);
    }
  }

  datatype Block = Block(addr: nat, size: nat)

  /** The pool as its users see it: what is carved, in order, what is in use and what is free. */
  datatype Pool = Pool(size: nat, blocks: seq<Block>, live: seq<Block>, free: seq<Block>)

  function Bytes(q: seq<Block>): nat {
    if q == [] then 0 else Bytes(q[..|q| - 1]) + q[|q| - 1].size
  }

  /** The blocks follow one another without gap from the start of the pool. */
  ghost predicate Tiles(q: seq<Block>) {
    forall i :: 0 <= i < |q| ==>
      q[i].addr == Bytes(q[..i]) && q[i].size > 0 && q[i].size % ALIGN == 0 && q[i].addr % ALIGN == 0
  }

  /** The position of the first free block of exactly this size, or the list's length. */
  function FirstFit(free: seq<Block>, n: nat): (i: nat)
    ensures i <= |free|
    ensures i < |free| ==> free[i].size == n
    ensures forall j :: 0 <= j < i ==> free[j].size != n
  {
    if free == [] || free[0].size == n then 0 else 1 + FirstFit(free[1..], n)
  }

  function AllocSpec(s: Pool, n: nat): (Option<Block>, Pool) {
    var i := FirstFit(s.free, n);
    if i < |s.free| then
      (Some(s.free[i]), s.(live := s.live + [s.free[i]], free := RemoveAt(s.free, i)))
    else if Bytes(s.blocks) + n > s.size then (None, s)
    else
      var b := Block(Bytes(s.blocks), n);
      (Some(b), s.(blocks := s.blocks + [b], live := s.live + [b]))
  }

  function FreeSpec(s: Pool, i: nat): Pool
    requires i < |s.live|
  {
    s.(live := RemoveAt(s.live, i), free := [s.live[i]] + s.free)
  }

  /** Live and free blocks are exactly the carved ones, which tile the pool up to the offset. */
  ghost predicate PoolInv(s: Pool) {
    && Tiles(s.blocks) && Bytes(s.blocks) <= s.size
    && multiset(s.blocks) == multiset(s.live) + multiset(s.free)
  }

  lemma {:induction false} BytesMonotone(q: seq<Block>, i: nat, j: nat)
    requires i < j <= |q|
    ensures Bytes(q[..i]) + q[i].size <= Bytes(q[..j])
    decreases j
  {
    assert q[..j][..j - 1] == q[..j - 1];
    if i < j - 1 {
      BytesMonotone(q, i, j - 1);
    }
  }

  /** Blocks that tile the pool do not overlap and end at the offset. */
  lemma TilesDisjoint(q: seq<Block>, i: nat, j: nat)
    requires Tiles(q) && i < j < |q|
    ensures q[i].addr + q[i].size <= q[j].addr && q[j].addr + q[j].size <= Bytes(q)
  {
    BytesMonotone(q, i, j);
    BytesMonotone(q, j, |q|);
    assert q[..|q|] == q;
  }

  lemma {:induction false} Twice<T>(q: seq<T>, i: nat, j: nat)
    requires i < j < |q| && q[i] == q[j]
    ensures multiset(q)[q[i]] >= 2
  {
    SplitAt(q, j);
    assert multiset(q) == multiset(q[..j]) + multiset{q[j]} + multiset(q[j + 1..]);
    assert q[..j][i] == q[i];
    assert q[i] in multiset(q[..j]);
  }

  lemma {:induction false} Once<T>(q: seq<T>, x: T)
    requires NoDups(q)
    ensures multiset(q)[x] <= 1
  {
    if q != [] {
      assert q == [q[0]] + q[1..];
      assert multiset(q) == multiset{q[0]} + multiset(q[1..]);
      Once(q[1..], x);
      if x == q[0] {
        assert x !in q[1..];
        assert x !in multiset(q[1..]);
      }
    }
  }

  /** A carved block is live or free, at one place only: no two frames in use overlap, and
      no free frame overlaps a frame in use. */
  lemma PlacedOnce(s: Pool, i: nat, j: nat)
    requires PoolInv(s) && i < j < |s.live + s.free|
    ensures var q := s.live + s.free;
      (q[i].addr + q[i].size <= q[j].addr || q[j].addr + q[j].size <= q[i].addr) && q[i].addr != q[j].addr
  {
    var q := s.live + s.free;
    assert multiset(q) == multiset(s.blocks);
    assert q[i] in multiset(s.blocks) && q[j] in multiset(s.blocks) by {
      assert q[i] in multiset(q) && q[j] in multiset(q);
    }
    var a :| 0 <= a < |s.blocks| && s.blocks[a] == q[i];
    var b :| 0 <= b < |s.blocks| && s.blocks[b] == q[j];
    if q[i] == q[j] {
      Twice(q, i, j);
      assert NoDups(s.blocks) by {
        forall c, d | 0 <= c < d < |s.blocks|
          ensures s.blocks[c] != s.blocks[d]
        {
          TilesDisjoint(s.blocks, c, d);
        }
      }
      Once(s.blocks, q[i]);
    }
    if a < b {
      TilesDisjoint(s.blocks, a, b);
    } else {
      TilesDisjoint(s.blocks, b, a);
    }
  }

  lemma MultisetRemove<T>(q: seq<T>, i: nat)
    requires i < |q|
    ensures multiset(RemoveAt(q, i)) + multiset{q[i]} == multiset(q)
  {
    SplitAt(q, i);
    assert multiset(q) == multiset(q[..i]) + multiset{q[i]} + multiset(q[i + 1..]);
  }

  lemma TilesSnoc(q: seq<Block>, b: Block)
    requires Tiles(q) && b.addr == Bytes(q) && b.addr % ALIGN == 0 && b.size > 0 && b.size % ALIGN == 0
    ensures Tiles(q + [b])
  {
    var r := q + [b];
    forall i | 0 <= i < |r|
      ensures r[i].addr == Bytes(r[..i])
    {
      assert r[..i] == q[..i];
      assert q[..|q|] == q;
    }
  }

  lemma {:induction false} BytesAligned(q: seq<Block>)
    requires forall i :: 0 <= i < |q| ==> q[i].size % ALIGN == 0
    ensures Bytes(q) % ALIGN == 0
  {
    if q != [] {
      BytesAligned(q[..|q| - 1]);
    }
  }

  lemma AllocKeeps(s: Pool, n: nat)
    requires PoolInv(s) && n > 0 && n % ALIGN == 0
    ensures PoolInv(AllocSpec(s, n).1)
  {
    var i := FirstFit(s.free, n);
    if i < |s.free| {
      MultisetRemove(s.free, i);
    } else if Bytes(s.blocks) + n <= s.size {
      var b := Block(Bytes(s.blocks), n);
      BytesAligned(s.blocks);
      TilesSnoc(s.blocks, b);
      BytesSnoc(s.blocks, b);
    }
  }

  lemma FreeKeeps(s: Pool, i: nat)
    requires PoolInv(s) && i < |s.live|
    ensures PoolInv(FreeSpec(s, i))
  {
    MultisetRemove(s.live, i);
  }

  /** Freeing a frame takes it, and it only, out of use; the next request for its size gets it back,
      and the free list is then as before. */
  lemma FreedNext(s: Pool, i: nat)
    requires PoolInv(s) && i < |s.live|
    ensures var t := FreeSpec(s, i);
      var (r, u) := AllocSpec(t, s.live[i].size);
      && multiset(s.live) == multiset(t.live) + multiset{s.live[i]} && t.blocks == s.blocks && t.size == s.size
      && r == Some(s.live[i]) && u.free == s.free && u.blocks == s.blocks && multiset(u.live) == multiset(s.live)
  {
    var t := FreeSpec(s, i);
    MultisetRemove(s.live, i);
    FitIs(t.free, s.live[i].size, 0);
    assert RemoveAt(t.free, 0) == s.free;
  }

  lemma BytesSnoc(q: seq<Block>, b: Block)
    ensures Bytes(q + [b]) == Bytes(q) + b.size
  {
    assert (q + [b])[..|q|] == q;
  }

  lemma {:induction false} BytesConcat(p: seq<Block>, q: seq<Block>)
    ensures Bytes(p + q) == Bytes(p) + Bytes(q)
  {
    if q == [] {
      assert p + q == p;
    } else {
      var n := |q| - 1;
      assert p + q == (p + q[..n]) + [q[n]];
      BytesSnoc(p + q[..n], q[n]);
      BytesConcat(p, q[..n]);
    }
  }

  lemma BytesRemove(q: seq<Block>, i: nat)
    requires i < |q|
    ensures Bytes(q) == Bytes(RemoveAt(q, i)) + q[i].size
  {
    SplitAt(q, i);
    BytesConcat(q[..i] + [q[i]], q[i + 1..]);
    BytesSnoc(q[..i], q[i]);
    BytesConcat(q[..i], q[i + 1..]);
  }

  lemma {:induction false} FitIs(free: seq<Block>, n: nat, i: nat)
    requires i <= |free| && (i < |free| ==> free[i].size == n)
    requires forall j :: 0 <= j < i ==> free[j].size != n
    ensures FirstFit(free, n) == i
  {
  }

  // ---------------------------------------------------------------------------
  // The allocator itself
  // ---------------------------------------------------------------------------

  /** A link written into a dead frame. */
  datatype FreeFrame = FreeFrame(next: Option<nat>, size: nat)

  function LinkTo(q: seq<Block>, i: nat): Option<nat> {
    if i < |q| then Some(q[i].addr) else None
  }

  /** The list that starts at `first` and runs through `memory` is `free`. */
  ghost predicate Linked(first: Option<nat>, memory: map<nat, FreeFrame>, free: seq<Block>) {
    && first == LinkTo(free, 0)
    && (forall i :: 0 <= i < |free| ==>
          free[i].addr in memory && memory[free[i].addr] == FreeFrame(LinkTo(free, i + 1), free[i].size))
  }

  lemma Walk(first: Option<nat>, memory: map<nat, FreeFrame>, free: seq<Block>, i: nat)
    requires Linked(first, memory, free) && i < |free|
    ensures LinkTo(free, i) == Some(free[i].addr) && free[i].addr in memory
    ensures memory[free[i].addr] == FreeFrame(LinkTo(free, i + 1), free[i].size)
  {
  }

  ghost predicate DistinctAddrs(q: seq<Block>) {
    forall i, j :: 0 <= i < j < |q| ==> q[i].addr != q[j].addr
  }

  lemma FreeApart(s: Pool)
    requires PoolInv(s)
    ensures DistinctAddrs(s.free)
    ensures forall i, j :: 0 <= i < |s.live| && 0 <= j < |s.free| ==> s.live[i].addr != s.free[j].addr
  {
    var q, n := s.live + s.free, |s.live|;
    forall i, j | 0 <= i < j < |s.free|
      ensures s.free[i].addr != s.free[j].addr
    {
      PlacedOnce(s, n + i, n + j);
      assert q[n + i] == s.free[i] && q[n + j] == s.free[j];
    }
    forall i, j | 0 <= i < n && 0 <= j < |s.free|
      ensures s.live[i].addr != s.free[j].addr
    {
      PlacedOnce(s, i, n + j);
      assert q[i] == s.live[i] && q[n + j] == s.free[j];
    }
  }

  /** `*link = frame->next`: the frame at `i` leaves the list. */
  lemma UnlinkKeeps(first: Option<nat>, memory: map<nat, FreeFrame>, free: seq<Block>, i: nat,
                    prev: Option<nat>, link: nat)
    requires Linked(first, memory, free) && DistinctAddrs(free) && i < |free| && link == free[i].addr
    requires prev == if i == 0 then None else LinkTo(free, i - 1)
    ensures link in memory && (prev.Some? ==> prev.value in memory)
    ensures prev.None? ==> Linked(memory[link].next, memory, RemoveAt(free, i))
    ensures prev.Some? ==>
      Linked(first, memory[prev.value := memory[prev.value].(next := memory[link].next)], RemoveAt(free, i))
  {
    var r := RemoveAt(free, i);
    if i > 0 {
      assert free[i - 1].addr in memory;
    }
    forall k | 0 <= k < |r|
      ensures r[k] == free[if k < i then k else k + 1]
    {
      RemovedAt(free, i, k);
    }
  }

  /** What an allocation does to the totals the allocator keeps. */
  lemma AllocTotals(s: Pool, n: nat)
    ensures var i := FirstFit(s.free, n);
      var (r, t) := AllocSpec(s, n);
      && t.size == s.size
      && (i < |s.free| ==>
            && r == Some(s.free[i]) && t.free == RemoveAt(s.free, i) && Bytes(t.blocks) == Bytes(s.blocks)
            && Bytes(t.live) == Bytes(s.live) + n)
      && (i == |s.free| ==> t.free == s.free)
      && (i == |s.free| && Bytes(s.blocks) + n > s.size ==> r == None && t == s)
      && (i == |s.free| && Bytes(s.blocks) + n <= s.size ==>
            && r == Some(Block(Bytes(s.blocks), n)) && Bytes(t.blocks) == Bytes(s.blocks) + n
            && Bytes(t.live) == Bytes(s.live) + n)
  {
    var i := FirstFit(s.free, n);
    if i < |s.free| {
      BytesSnoc(s.live, s.free[i]);
    } else {
      BytesSnoc(s.blocks, Block(Bytes(s.blocks), n));
      BytesSnoc(s.live, Block(Bytes(s.blocks), n));
    }
  }

  /** The allocator's own variables agree with the pool `s`. */
  ghost predicate Matches(s: Pool, size: nat, offset: nat, liveBytes: nat, first: Option<nat>,
                          memory: map<nat, FreeFrame>)
  {
    && PoolInv(s) && s.size == size
    && offset == Bytes(s.blocks) && liveBytes == Bytes(s.live)
    && Linked(first, memory, s.free)
  }

  lemma ReuseMatches(s: Pool, size: nat, offset: nat, live: nat, first: Option<nat>, memory: map<nat, FreeFrame>,
                     n: nat, prev: Option<nat>, link: nat)
    requires Matches(s, size, offset, live, first, memory) && n > 0 && n % ALIGN == 0
    requires var i := FirstFit(s.free, n);
      i < |s.free| && link == s.free[i].addr && prev == if i == 0 then None else LinkTo(s.free, i - 1)
    ensures link in memory && (prev.Some? ==> prev.value in memory)
    ensures AllocSpec(s, n).0.Some? && AllocSpec(s, n).0.value.addr == link
    ensures var t := AllocSpec(s, n).1;
      if prev.None? then Matches(t, size, offset, live + n, memory[link].next, memory)
      else Matches(t, size, offset, live + n, first,
                   memory[prev.value := memory[prev.value].(next := memory[link].next)])
  {
    AllocKeeps(s, n);
    FreeApart(s);
    UnlinkKeeps(first, memory, s.free, FirstFit(s.free, n), prev, link);
    Reused(s, n);
  }

  lemma Reused(s: Pool, n: nat)
    requires FirstFit(s.free, n) < |s.free|
    ensures AllocSpec(s, n).0 == Some(s.free[FirstFit(s.free, n)])
    ensures AllocSpec(s, n).1.free == RemoveAt(s.free, FirstFit(s.free, n)) && AllocSpec(s, n).1.size == s.size
    ensures Bytes(AllocSpec(s, n).1.blocks) == Bytes(s.blocks) && Bytes(AllocSpec(s, n).1.live) == Bytes(s.live) + n
  {
    AllocTotals(s, n);
  }

  lemma BumpMatches(s: Pool, size: nat, offset: nat, live: nat, first: Option<nat>, memory: map<nat, FreeFrame>, n: nat)
    requires Matches(s, size, offset, live, first, memory) && n > 0 && n % ALIGN == 0
    requires FirstFit(s.free, n) == |s.free|
    ensures offset <= size
    ensures n > size - offset ==> AllocSpec(s, n) == (None, s)
    ensures n <= size - offset ==>
      && AllocSpec(s, n).0 == Some(Block(offset, n))
      && Matches(AllocSpec(s, n).1, size, offset + n, live + n, first, memory)
  {
    AllocKeeps(s, n);
    AllocTotals(s, n);
  }

  lemma FreeMatches(s: Pool, size: nat, offset: nat, live: nat, first: Option<nat>, memory: map<nat, FreeFrame>, i: nat)
    requires Matches(s, size, offset, live, first, memory) && i < |s.live|
    ensures var b := s.live[i];
      b.size <= live
      && Matches(FreeSpec(s, i), size, offset, live - b.size, Some(b.addr), memory[b.addr := FreeFrame(first, b.size)])
  {
    var b := s.live[i];
    BytesRemove(s.live, i);
    FreeKeeps(s, i);
    FreeApart(s);
    PushLinked(first, memory, s.free, b);
  }

  lemma PushLinked(first: Option<nat>, memory: map<nat, FreeFrame>, free: seq<Block>, b: Block)
    requires Linked(first, memory, free) && forall j :: 0 <= j < |free| ==> free[j].addr != b.addr
    ensures Linked(Some(b.addr), memory[b.addr := FreeFrame(first, b.size)], [b] + free)
  {
  }

  class FramePool {
    const size: nat
    var offset: nat
    var liveBytes: nat
    var first: Option<nat>
    var memory: map<nat, FreeFrame>
    ghost var view: Pool

    ghost predicate Valid()
      reads this
    {
      Matches(view, size, offset, liveBytes, first, memory)
    }

    constructor (size: nat)
      ensures Valid() && view == Pool(size, [], [], []) && this.size == size
    {
      this.size := size;
      offset, liveBytes, first, memory := 0, 0, None, map[];
      view := Pool(size, [], [], []);
    }

    /** Walks the list for the first frame of exactly `n` bytes. */
    method Search(n: nat) returns (prev: Option<nat>, link: Option<nat>)
      requires Valid()
      ensures var i := FirstFit(view.free, n);
        link == LinkTo(view.free, i) && prev == if i == 0 then None else LinkTo(view.free, i - 1)
    {
      prev, link := None, first;
      ghost var i, q := 0, view.free;
      if q != [] {
        Walk(first, memory, q, 0);
      }
      while link.Some? && memory[link.value].size != n
        invariant 0 <= i <= |q|
        invariant link == LinkTo(q, i) && prev == if i == 0 then None else LinkTo(q, i - 1)
        invariant i < |q| ==> link.value in memory && memory[link.value] == FreeFrame(LinkTo(q, i + 1), q[i].size)
        invariant forall j :: 0 <= j < i ==> q[j].size != n
        decreases |q| - i
      {
        prev := link;
        link := memory[link.value].next;
        i := i + 1;
        if i < |q| {
          Walk(first, memory, q, i);
        }
      }
      FitIs(view.free, n, i);
    }

    /** The free frame at `link` leaves the list and is live again. */
    method Reuse(n: nat, prev: Option<nat>, link: nat)
      requires Valid() && n > 0 && n % ALIGN == 0
      requires var i := FirstFit(view.free, n);
        i < |view.free| && link == view.free[i].addr && prev == if i == 0 then None else LinkTo(view.free, i - 1)
      modifies this
      ensures Valid() && view == AllocSpec(old(view), n).1
      ensures AllocSpec(old(view), n).0.Some? && AllocSpec(old(view), n).0.value.addr == link
    {
      ReuseMatches(view, size, offset, liveBytes, first, memory, n, prev, link);
      if prev.None? {
        first := memory[link].next;
      } else {
        memory := memory[prev.value := memory[prev.value].(next := memory[link].next)];
      }
      liveBytes := liveBytes + n;
      view := AllocSpec(view, n).1;
    }

    /** The bump allocator: the next `n` untouched bytes, if there are as many. */
    method Bump(n: nat, ghost t: Pool) returns (r: Option<nat>)
      requires Valid() && offset <= size
      requires n <= size - offset ==> Matches(t, size, offset + n, liveBytes + n, first, memory)
      modifies this
      ensures Valid() && view == if n > size - old(offset) then old(view) else t
      ensures r == if n > size - old(offset) then None else Some(old(offset))
    {
      if n > size - offset {
        return None;
      }
      r := Some(offset);
      offset := offset + n;
      liveBytes := liveBytes + n;
      view := t;
    }

    /** `coro_frame_alloc` of `n` bytes, rounded up already: a free frame of this size, else
        untouched pool memory, else nothing. */
    method Alloc(n: nat) returns (r: Option<nat>)
      requires Valid() && n > 0 && n % ALIGN == 0
      modifies this
      ensures Valid() && view == AllocSpec(old(view), n).1
      ensures r == match AllocSpec(old(view), n).0 case None => None case Some(b) => Some(b.addr)
    {
      var prev, link := Search(n);
      if link.Some? {
        Reuse(n, prev, link.value);
        return link;
      }
      BumpMatches(view, size, offset, liveBytes, first, memory, n);
      r := Bump(n, AllocSpec(view, n).1);
    }

    /** `coro_frame_free` of the live frame at `addr`, with the size it was allocated with. */
    method Free(addr: nat, n: nat, ghost i: nat)
      requires Valid() && i < |view.live| && view.live[i] == Block(addr, n)
      modifies this
      ensures Valid() && view == FreeSpec(old(view), i)
    {
      FreeMatches(view, size, offset, liveBytes, first, memory, i);
      liveBytes := liveBytes - n;
      memory := memory[addr := FreeFrame(first, n)];
      first := Some(addr);
      view := FreeSpec(view, i);
    }
  }
}
