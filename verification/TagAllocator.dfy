/** The split-transaction tag allocator: from the tag handed out last it looks two further on,
    then at each following tag in turn, round the whole range 1..255. */
module TagAllocator {
  const TAGS: nat := 255

  /** The tag `j` places after `t` on the circle 1..255. */
  function TagAt(t: nat, j: nat): (r: nat)
    ensures 1 <= r <= TAGS
  {
    (t + j + (TAGS - 1)) % TAGS + 1
  }

  /** The `i`-th candidate of a scan that starts after `last`. */
  function Candidate(last: nat, i: nat): (r: nat)
    ensures r == TagAt(last, i + 1)
  {
    (last + i) % TAGS + 1
  }

  /** `active[t]` for 0..255 (0 is never handed out) and the tag handed out last. */
  datatype Tags = Tags(active: seq<bool>, last: nat)

  predicate TagsOk(s: Tags) {
    |s.active| == TAGS + 1 && 1 <= s.last <= TAGS
  }

  /** The first `i` in `from..255` whose candidate is free, or 256. */
  function FirstFree(s: Tags, from: nat): (i: nat)
    requires TagsOk(s) && 1 <= from <= TAGS + 1
    ensures from <= i <= TAGS + 1
    ensures i <= TAGS ==> !s.active[Candidate(s.last, i)]
    ensures forall j :: from <= j < i ==> s.active[Candidate(s.last, j)]
    decreases TAGS + 1 - from
  {
    if from > TAGS || !s.active[Candidate(s.last, from)] then from else FirstFree(s, from + 1)
  }

  /** The tag handed out, 0 when there is none, and the state afterwards. */
  function AllocateSpec(s: Tags): (nat, Tags)
    requires TagsOk(s)
  {
    var i := FirstFree(s, 1);
    if i > TAGS then (0, s)
    else
      var t := Candidate(s.last, i);
      (t, Tags(s.active[t := true], t))
  }

  function ReleaseSpec(s: Tags, t: nat): Tags
    requires TagsOk(s) && t <= TAGS
  {
    s.(active := s.active[t := false])
  }

  /** The scan passes every tag. */
  lemma ScanCovers(last: nat, t: nat)
    requires 1 <= last <= TAGS && 1 <= t <= TAGS
    ensures exists i :: 1 <= i <= TAGS && Candidate(last, i) == t
  {
    var d := t - 1 - last;
    var i := if d > 0 then d else if d + TAGS > 0 then d + TAGS else TAGS;
    assert 1 <= i <= TAGS && Candidate(last, i) == t;
  }

  /** An allocation fails exactly when all 255 tags are active, and never returns an active one. */
  lemma AllocateExact(s: Tags)
    requires TagsOk(s)
    ensures var (t, r) := AllocateSpec(s);
      && TagsOk(r)
      && (t == 0 <==> forall u :: 1 <= u <= TAGS ==> s.active[u])
      && (t != 0 ==> 1 <= t <= TAGS && !s.active[t] && r.last == t && r.active == s.active[t := true])
      && (t == 0 ==> r == s)
  {
    var i := FirstFree(s, 1);
    if i > TAGS {
      forall u | 1 <= u <= TAGS
        ensures s.active[u]
      {
        ScanCovers(s.last, u);
      }
    }
  }

  // ---------------------------------------------------------------------------
  // How soon a tag can be handed out again
  // ---------------------------------------------------------------------------

  datatype TagUse = Allocate | Release(t: nat)

  predicate Valid(us: seq<TagUse>) {
    forall i :: 0 <= i < |us| && us[i].Release? ==> us[i].t <= TAGS
  }

  function Do(s: Tags, u: TagUse): (r: Tags)
    requires TagsOk(s) && (u.Release? ==> u.t <= TAGS)
    ensures TagsOk(r)
  {
    match u
    case Allocate => AllocateSpec(s).1
    case Release(t) => ReleaseSpec(s, t)
  }

  function After(s: Tags, us: seq<TagUse>): (r: Tags)
    requires TagsOk(s) && Valid(us)
    ensures TagsOk(r)
  {
    if us == [] then s else Do(After(s, us[..|us| - 1]), us[|us| - 1])
  }

  /** How many of the allocations succeed. */
  function Successes(s: Tags, us: seq<TagUse>): nat
    requires TagsOk(s) && Valid(us)
  {
    if us == [] then 0
    else
      var before := us[..|us| - 1];
      Successes(s, before)
      + if us[|us| - 1].Allocate? && AllocateSpec(After(s, before)).0 != 0 then 1 else 0
  }

  /** The tags other than `t` that are active. */
  function Others(s: Tags, t: nat): set<nat>
    requires TagsOk(s)
  {
    set u | 1 <= u <= TAGS && u != t && s.active[u]
  }

  /** How many of the `n` tags after `t` are active. */
  function Busy(s: Tags, t: nat, n: nat): nat
    requires TagsOk(s)
  {
    if n == 0 then 0 else Busy(s, t, n - 1) + if s.active[TagAt(t, n)] then 1 else 0
  }

  lemma TagsApart(t: nat, j: nat, n: nat)
    requires 1 <= t <= TAGS && j < n < TAGS
    ensures TagAt(t, j) != TagAt(t, n)
  {
  }

  lemma {:induction false} BusyIsSet(s: Tags, t: nat, n: nat)
    requires TagsOk(s) && 1 <= t <= TAGS && n < TAGS
    ensures Busy(s, t, n) == |set j | 1 <= j <= n && s.active[TagAt(t, j)] :: TagAt(t, j)|
  {
    var now := set j | 1 <= j <= n && s.active[TagAt(t, j)] :: TagAt(t, j);
    if n > 0 {
      var before := set j | 1 <= j <= n - 1 && s.active[TagAt(t, j)] :: TagAt(t, j);
      BusyIsSet(s, t, n - 1);
      forall j | 1 <= j <= n - 1
        ensures TagAt(t, j) != TagAt(t, n)
      {
        TagsApart(t, j, n);
      }
      assert now == if s.active[TagAt(t, n)] then before + {TagAt(t, n)} else before;
    }
  }

  lemma BusyIsOthers(s: Tags, t: nat)
    requires TagsOk(s) && 1 <= t <= TAGS
    ensures Busy(s, t, TAGS - 1) == |Others(s, t)|
  {
    BusyIsSet(s, t, TAGS - 1);
    var now := set j | 1 <= j <= TAGS - 1 && s.active[TagAt(t, j)] :: TagAt(t, j);
    forall u | u in Others(s, t)
      ensures u in now
    {
      var j := if u > t then u - t else u + TAGS - t;
      assert TagAt(t, j) == u;
    }
    forall u | u in now
      ensures u in Others(s, t)
    {
      var j :| 1 <= j <= TAGS - 1 && s.active[TagAt(t, j)] && TagAt(t, j) == u;
    }
    assert now == Others(s, t);
  }

  lemma {:induction false} BusyRun(s: Tags, t: nat, a: nat, b: nat)
    requires TagsOk(s) && a <= b
    requires forall j :: a < j <= b ==> s.active[TagAt(t, j)]
    ensures Busy(s, t, b) == Busy(s, t, a) + (b - a)
    decreases b
  {
    if a < b {
      BusyRun(s, t, a, b - 1);
    }
  }

  lemma {:induction false} BusyGrows(s: Tags, t: nat, a: nat, b: nat)
    requires TagsOk(s) && a <= b
    ensures Busy(s, t, a) <= Busy(s, t, b)
    decreases b
  {
    if a < b {
      BusyGrows(s, t, a, b - 1);
    }
  }

  lemma TagAtAgain(t: nat, d: nat, j: nat)
    requires 1 <= t <= TAGS
    ensures TagAt(TagAt(t, d), j) == TagAt(t, d + j)
  {
  }

  /** The first lap after `t` was handed out: `d` places passed in `k` allocations, and beyond
      them only tags active at the start are active. */
  ghost predicate FirstLap(s0: Tags, t: nat, s: Tags, d: nat, k: nat)
    requires TagsOk(s0) && TagsOk(s)
  {
    && d < TAGS && s.last == TagAt(t, d)
    && d <= 2 * k + Busy(s0, t, d)
    && forall j :: d < j < TAGS && s.active[TagAt(t, j)] ==> s0.active[TagAt(t, j)]
  }

  /** What the scan skipped in the first lap was active from the start. */
  lemma Skipped(s0: Tags, t: nat, s: Tags, d: nat, k: nat, i: nat)
    requires TagsOk(s0) && TagsOk(s) && 1 <= t <= TAGS && FirstLap(s0, t, s, d, k) && i == FirstFree(s, 1)
    ensures forall p :: d + 2 <= p <= d + i && p < TAGS ==> s0.active[TagAt(t, p)]
  {
    forall p | d + 2 <= p <= d + i && p < TAGS
      ensures s0.active[TagAt(t, p)]
    {
      TagAtAgain(t, d, p - d);
      assert s.active[Candidate(s.last, p - d - 1)];
    }
  }

  /** The allocation stays within the lap. */
  lemma LapGoesOn(s0: Tags, t: nat, s: Tags, d: nat, k: nat, i: nat)
    requires TagsOk(s0) && TagsOk(s) && 1 <= t <= TAGS && FirstLap(s0, t, s, d, k)
    requires i == FirstFree(s, 1) && i <= TAGS && d + i + 1 < TAGS
    ensures AllocateSpec(s).0 != t && FirstLap(s0, t, AllocateSpec(s).1, d + i + 1, k + 1)
  {
    var e, r := d + i + 1, AllocateSpec(s).1;
    Skipped(s0, t, s, d, k, i);
    TagAtAgain(t, d, i + 1);
    assert r.last == TagAt(t, e);
    assert e <= 2 * (k + 1) + Busy(s0, t, e) by {
      BusyRun(s0, t, d + 1, d + i);
      BusyGrows(s0, t, d, d + 1);
      BusyGrows(s0, t, d + i, e);
    }
    forall j | e < j < TAGS && r.active[TagAt(t, j)]
      ensures s0.active[TagAt(t, j)]
    {
      Different(t, e, j);
    }
    Different(t, 0, e);
  }

  lemma Different(t: nat, a: nat, b: nat)
    requires 1 <= t <= TAGS && a < b < TAGS
    ensures TagAt(t, a) != TagAt(t, b) && TagAt(t, 0) == t
  {
  }

  /** The allocation completes the lap: enough allocations have happened. */
  lemma LapEnds(s0: Tags, t: nat, s: Tags, d: nat, k: nat, i: nat)
    requires TagsOk(s0) && TagsOk(s) && 1 <= t <= TAGS && FirstLap(s0, t, s, d, k)
    requires i == FirstFree(s, 1) && i <= TAGS <= d + i + 1
    ensures 2 * (k + 1) >= TAGS - Busy(s0, t, TAGS - 1)
  {
    Skipped(s0, t, s, d, k, i);
    if d < TAGS - 1 {
      BusyRun(s0, t, d + 1, TAGS - 1);
      BusyGrows(s0, t, d, d + 1);
    }
  }

  ghost predicate InFirstLap(s0: Tags, t: nat, s: Tags, k: nat)
    requires TagsOk(s0) && TagsOk(s)
  {
    exists d :: FirstLap(s0, t, s, d, k)
  }

  ghost predicate Enough(s0: Tags, t: nat, k: nat)
    requires TagsOk(s0)
  {
    2 * k >= TAGS - Busy(s0, t, TAGS - 1)
  }

  lemma AllocateLap(s0: Tags, t: nat, s: Tags, k: nat)
    requires TagsOk(s0) && TagsOk(s) && 1 <= t <= TAGS && InFirstLap(s0, t, s, k)
    ensures var (u, r) := AllocateSpec(s);
      && TagsOk(r)
      && (u == 0 ==> r == s)
      && (u != 0 ==> (u != t && InFirstLap(s0, t, r, k + 1)) || Enough(s0, t, k + 1))
  {
    AllocateExact(s);
    var d :| FirstLap(s0, t, s, d, k);
    if FirstFree(s, 1) <= TAGS {
      AllocateFrom(s0, t, s, d, k);
    }
  }

  lemma AllocateFrom(s0: Tags, t: nat, s: Tags, d: nat, k: nat)
    requires TagsOk(s0) && TagsOk(s) && 1 <= t <= TAGS && FirstLap(s0, t, s, d, k) && FirstFree(s, 1) <= TAGS
    ensures (AllocateSpec(s).0 != t && InFirstLap(s0, t, AllocateSpec(s).1, k + 1)) || Enough(s0, t, k + 1)
  {
    var i := FirstFree(s, 1);
    if d + i + 1 < TAGS {
      LapGoesOn(s0, t, s, d, k, i);
    } else {
      LapEnds(s0, t, s, d, k, i);
    }
  }

  lemma ReleaseLap(s0: Tags, t: nat, s: Tags, k: nat, v: nat)
    requires TagsOk(s0) && TagsOk(s) && InFirstLap(s0, t, s, k) && v <= TAGS
    ensures InFirstLap(s0, t, ReleaseSpec(s, v), k)
  {
    var d :| FirstLap(s0, t, s, d, k);
    assert FirstLap(s0, t, ReleaseSpec(s, v), d, k);
  }

  /** Either the first lap is still going on or there have been enough successes. */
  lemma {:induction false} LapOrEnough(s0: Tags, t: nat, us: seq<TagUse>)
    requires TagsOk(s0) && s0.last == t && Valid(us)
    ensures InFirstLap(s0, t, After(s0, us), Successes(s0, us)) || Enough(s0, t, Successes(s0, us))
    decreases |us|
  {
    if us == [] {
      assert TagAt(t, 0) == t;
      assert FirstLap(s0, t, s0, 0, 0);
    } else {
      var before, u := us[..|us| - 1], us[|us| - 1];
      LapOrEnough(s0, t, before);
      var s, k := After(s0, before), Successes(s0, before);
      if InFirstLap(s0, t, s, k) {
        match u
        case Allocate => AllocateLap(s0, t, s, k);
        case Release(v) => ReleaseLap(s0, t, s, k, v);
      }
    }
  }

  /** Reuse distance: once `t` is handed out while `|Others|` other tags are active, whatever is
      released meanwhile, the allocation that hands `t` out again is at least the
      ceil((255 - |Others|) / 2)-th successful one. */
  lemma ReuseDistance(s0: Tags, t: nat, us: seq<TagUse>)
    requires TagsOk(s0) && s0.last == t && Valid(us)
    requires us != [] && us[|us| - 1] == Allocate
    requires AllocateSpec(After(s0, us[..|us| - 1])).0 == t
    ensures Successes(s0, us) >= (TAGS - |Others(s0, t)| + 1) / 2
  {
    var before := us[..|us| - 1];
    var s, k := After(s0, before), Successes(s0, before);
    LapOrEnough(s0, t, before);
    BusyIsOthers(s0, t);
    if InFirstLap(s0, t, s, k) {
      AllocateLap(s0, t, s, k);
    }
  }
}
