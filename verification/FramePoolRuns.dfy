/** Memory use of the frame pool: over any sequential run the pool grows to exactly the sum,
    over frame sizes, of the size times the most frames of that size ever in use at once. */
module FramePoolRuns {
  import opened Prelude
  import opened FramePools

  /** An allocation of so many bytes, or the release of the live frame at this position. */
  datatype Use = Alloc(n: nat) | Free(i: nat)

  function Do(s: Pool, u: Use): Pool {
    match u
    case Alloc(n) => AllocSpec(s, n).1
    case Free(i) => if i < |s.live| then FreeSpec(s, i) else s
  }

  /** The states of a run, from the empty pool on. */
  function Trace(size: nat, us: seq<Use>): (t: seq<Pool>)
    ensures |t| == |us| + 1
  {
    if us == [] then [Pool(size, [], [], [])]
    else
      var t := Trace(size, us[..|us| - 1]);
      t + [Do(t[|t| - 1], us[|us| - 1])]
  }

  function Last(t: seq<Pool>): Pool
    requires t != []
  {
    t[|t| - 1]
  }

  function Count(q: seq<Block>, n: nat): nat {
    if q == [] then 0 else Count(q[..|q| - 1], n) + if q[|q| - 1].size == n then 1 else 0
  }

  /** The most frames of `n` bytes in use at once in any of these states. */
  function Peak(t: seq<Pool>, n: nat): nat {
    if t == [] then 0
    else
      var p, c := Peak(t[..|t| - 1], n), Count(t[|t| - 1].live, n);
      if p < c then c else p
  }

  /** The sum over all frame sizes up to `k` units of size times peak. */
  function WeightedPeaks(t: seq<Pool>, k: nat): nat {
    if k == 0 then 0 else WeightedPeaks(t, k - 1) + k * ALIGN * Peak(t, k * ALIGN)
  }

  predicate WellSized(us: seq<Use>) {
    forall i :: 0 <= i < |us| && us[i].Alloc? ==> us[i].n > 0 && us[i].n % ALIGN == 0
  }

  lemma CountSnoc(q: seq<Block>, b: Block, n: nat)
    ensures Count(q + [b], n) == Count(q, n) + if b.size == n then 1 else 0
  {
    assert (q + [b])[..|q|] == q;
  }

  lemma {:induction false} CountConcat(p: seq<Block>, q: seq<Block>, n: nat)
    ensures Count(p + q, n) == Count(p, n) + Count(q, n)
  {
    if q == [] {
      assert p + q == p;
    } else {
      var k := |q| - 1;
      assert p + q == (p + q[..k]) + [q[k]];
      CountSnoc(p + q[..k], q[k], n);
      CountConcat(p, q[..k], n);
    }
  }

  lemma CountRemove(q: seq<Block>, i: nat, n: nat)
    requires i < |q|
    ensures Count(q, n) == Count(RemoveAt(q, i), n) + if q[i].size == n then 1 else 0
  {
    SplitAt(q, i);
    CountConcat(q[..i] + [q[i]], q[i + 1..], n);
    CountSnoc(q[..i], q[i], n);
    CountConcat(q[..i], q[i + 1..], n);
  }

  lemma {:induction false} CountNone(q: seq<Block>, n: nat)
    requires forall i :: 0 <= i < |q| ==> q[i].size != n
    ensures Count(q, n) == 0
  {
    if q != [] {
      CountNone(q[..|q| - 1], n);
    }
  }

  /** Carved frames of a size are the live ones and the free ones of that size. */
  ghost predicate Balanced(s: Pool) {
    forall n :: Count(s.blocks, n) == Count(s.live, n) + Count(s.free, n)
  }

  lemma DoBalanced(s: Pool, u: Use)
    requires Balanced(s)
    ensures Balanced(Do(s, u))
  {
    forall n
      ensures Count(Do(s, u).blocks, n) == Count(Do(s, u).live, n) + Count(Do(s, u).free, n)
    {
      match u
      case Alloc(m) =>
        var i := FirstFit(s.free, m);
        if i < |s.free| {
          CountRemove(s.free, i, n);
          CountSnoc(s.live, s.free[i], n);
        } else {
          var b := Block(Bytes(s.blocks), m);
          CountSnoc(s.blocks, b, n);
          CountSnoc(s.live, b, n);
        }
      case Free(i) =>
        if i < |s.live| {
          CountRemove(s.live, i, n);
          CountConcat([s.live[i]], s.free, n);
          CountSnoc([], s.live[i], n);
          assert [] + [s.live[i]] == [s.live[i]];
        }
    }
  }

  /** One use keeps the carved count of a size equal to the most frames of it ever in use. */
  lemma DoPeak(s: Pool, u: Use, n: nat, peak: nat)
    requires Balanced(s) && Count(s.blocks, n) == peak
    ensures var t := Do(s, u);
      Count(t.blocks, n) == if peak < Count(t.live, n) then Count(t.live, n) else peak
  {
    match u
    case Alloc(m) =>
      var i := FirstFit(s.free, m);
      if i < |s.free| {
        CountSnoc(s.live, s.free[i], n);
        CountRemove(s.free, i, n);
      } else {
        var b := Block(Bytes(s.blocks), m);
        CountSnoc(s.blocks, b, n);
        CountSnoc(s.live, b, n);
        if n == m {
          CountNone(s.free, n);
        }
      }
    case Free(i) =>
      if i < |s.live| {
        CountRemove(s.live, i, n);
      }
  }

  lemma {:induction false} TraceInv(size: nat, us: seq<Use>, n: nat)
    requires WellSized(us)
    ensures var t := Trace(size, us);
      && Balanced(Last(t)) && PoolInv(Last(t)) && Last(t).size == size
      && Count(Last(t).blocks, n) == Peak(t, n)
    decreases |us|
  {
    var t := Trace(size, us);
    if us == [] {
      assert t[..0] == [];
      assert Tiles([]);
    } else {
      var u, before := us[|us| - 1], us[..|us| - 1];
      TraceInv(size, before, n);
      var s := Last(Trace(size, before));
      DoBalanced(s, u);
      DoPeak(s, u, n, Peak(Trace(size, before), n));
      assert t[..|t| - 1] == Trace(size, before);
      match u
      case Alloc(m) => AllocKeeps(s, m);
      case Free(i) => if i < |s.live| { FreeKeeps(s, i); }
    }
  }

  /** The sum over all frame sizes up to `k` units of size times the number of blocks. */
  function WeightedCounts(q: seq<Block>, k: nat): nat {
    if k == 0 then 0 else WeightedCounts(q, k - 1) + k * ALIGN * Count(q, k * ALIGN)
  }

  lemma {:induction false} WeightedSnoc(q: seq<Block>, b: Block, j: nat, k: nat)
    requires j > 0 && b.size == j * ALIGN
    ensures WeightedCounts(q + [b], k) == WeightedCounts(q, k) + if j <= k then b.size else 0
  {
    if k > 0 {
      WeightedSnoc(q, b, j, k - 1);
      CountSnoc(q, b, k * ALIGN);
      var c := Count(q, k * ALIGN);
      assert k * ALIGN * (c + 1) == k * ALIGN * c + k * ALIGN;
    }
  }

  lemma {:induction false} WeightedEmpty(k: nat)
    ensures WeightedCounts([], k) == 0
  {
    if k > 0 {
      WeightedEmpty(k - 1);
    }
  }

  lemma {:induction false} BytesByClass(q: seq<Block>, k: nat)
    requires forall i :: 0 <= i < |q| ==> 0 < q[i].size <= k * ALIGN && q[i].size % ALIGN == 0
    ensures Bytes(q) == WeightedCounts(q, k)
  {
    if q == [] {
      WeightedEmpty(k);
    } else {
      var n := |q| - 1;
      BytesByClass(q[..n], k);
      WeightedSnoc(q[..n], q[n], q[n].size / ALIGN, k);
      assert q[..n] + [q[n]] == q;
    }
  }

  lemma {:induction false} SamePeaks(size: nat, us: seq<Use>, k: nat)
    requires WellSized(us)
    ensures WeightedCounts(Last(Trace(size, us)).blocks, k) == WeightedPeaks(Trace(size, us), k)
    decreases k
  {
    if k > 0 {
      SamePeaks(size, us, k - 1);
      TraceInv(size, us, k * ALIGN);
    }
  }

  /** The bump offset is the sum over frame sizes of size times peak use. */
  lemma PeakLaw(size: nat, us: seq<Use>)
    requires WellSized(us)
    ensures Bytes(Last(Trace(size, us)).blocks) == WeightedPeaks(Trace(size, us), size / ALIGN)
  {
    TraceInv(size, us, 0);
    var q := Last(Trace(size, us)).blocks;
    var k := size / ALIGN;
    forall i | 0 <= i < |q|
      ensures q[i].size <= k * ALIGN
    {
      BytesMonotone(q, i, |q|);
      assert q[..|q|] == q;
      assert q[i].size / ALIGN <= size / ALIGN;
    }
    BytesByClass(q, k);
    SamePeaks(size, us, k);
  }

  /** An allocation fails exactly when no free frame has its size and the untouched tail of
      the pool is too small; what it returns has the size asked for and shares no byte with a
      live frame. */
  lemma AllocFails(size: nat, us: seq<Use>, n: nat)
    requires WellSized(us) && n > 0 && n % ALIGN == 0
    ensures var s := Last(Trace(size, us));
      && (AllocSpec(s, n).0 == None <==>
            (forall i :: 0 <= i < |s.free| ==> s.free[i].size != n)
            && size - WeightedPeaks(Trace(size, us), size / ALIGN) < n)
      && (AllocSpec(s, n).0.Some? ==>
            AllocSpec(s, n).0.value.size == n && AllocSpec(s, n).1.live == s.live + [AllocSpec(s, n).0.value])
      && (AllocSpec(s, n).0.Some? ==> forall i :: 0 <= i < |s.live| ==>
            var a, b := AllocSpec(s, n).0.value, s.live[i];
            a.addr + a.size <= b.addr || b.addr + b.size <= a.addr)
  {
    var s := Last(Trace(size, us));
    TraceInv(size, us, 0);
    PeakLaw(size, us);
    if AllocSpec(s, n).0.Some? {
      AllocApart(s, n);
    }
  }

  lemma AllocApart(s: Pool, n: nat)
    requires PoolInv(s) && n > 0 && n % ALIGN == 0 && AllocSpec(s, n).0.Some?
    ensures forall i :: 0 <= i < |s.live| ==>
      var a, b := AllocSpec(s, n).0.value, s.live[i];
      a.addr + a.size <= b.addr || b.addr + b.size <= a.addr
  {
    AllocKeeps(s, n);
    var (r, t) := AllocSpec(s, n);
    var q := t.live + t.free;
    forall i | 0 <= i < |s.live|
      ensures r.value.addr + r.value.size <= s.live[i].addr || s.live[i].addr + s.live[i].size <= r.value.addr
    {
      PlacedOnce(t, i, |s.live|);
      assert q[i] == s.live[i] && q[|s.live|] == r.value;
    }
  }
}
