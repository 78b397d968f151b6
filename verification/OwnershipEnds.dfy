/** The steps that destroy frames or resume a waiting coroutine keep the invariant. */
module OwnershipEnds {
  import opened Prelude
  import opened Ownership
  import opened OwnershipProofs
  import opened OwnershipSteps

  // ---------------------------------------------------------------------------
  // Destroying several tasks of one owner
  // ---------------------------------------------------------------------------

  function SubAll(f: Frames, xs: seq<Id>): set<Id> {
    if xs == [] then {} else SubAll(f, xs[..|xs| - 1]) + Sub(f, xs[|xs| - 1])
  }

  lemma {:induction false} SubAllHas(f: Frames, xs: seq<Id>, d: Id)
    ensures d in SubAll(f, xs) <==> exists i :: 0 <= i < |xs| && d in Sub(f, xs[i])
  {
    if xs != [] {
      SubAllHas(f, xs[..|xs| - 1], d);
    }
  }

  lemma {:induction false} SubAllErased(f: Frames, gone: set<Id>, xs: seq<Id>)
    requires Closed(f, gone)
    ensures SubAll(f - gone, xs) == SubAll(f, xs) - gone
  {
    if xs != [] {
      SubAllErased(f, gone, xs[..|xs| - 1]);
      SubAfterErase(f, gone, xs[|xs| - 1]);
    }
  }

  lemma SiblingsApart(f: Frames, p: Id, x: Id, y: Id)
    requires x in f && y in f && f[x].owner == Some(p) && f[y].owner == Some(p) && x != y && p < x && p < y
    ensures !Under(f, x, y)
  {
    if Under(f, x, y) {
      UnderBounds(f, p, y);
    }
  }

  ghost predicate Siblings(f: Frames, p: Id, xs: seq<Id>) {
    NoDups(xs) && forall i :: 0 <= i < |xs| ==> xs[i] in f && f[xs[i]].owner == Some(p) && p < xs[i]
  }

  lemma {:induction false} DestroyAllErases(s: State, p: Id, xs: seq<Id>)
    requires HandleInv(s) && Siblings(s.frames, p, xs) && NoneRunning(s, SubAll(s.frames, xs))
    ensures DestroyAll(s, xs) == Erase(s, SubAll(s.frames, xs))
    decreases |xs|
  {
    if xs == [] {
      assert SubAll(s.frames, xs) == {};
      EraseNothing(s);
    } else {
      var x := xs[|xs| - 1];
      LastErased(s, p, xs);
      DestroyFrameErases(s, x);
      DestroyAllErases(Erase(s, Sub(s.frames, x)), p, xs[..|xs| - 1]);
    }
  }

  lemma SiblingsLeft(s: State, p: Id, xs: seq<Id>)
    requires xs != [] && Siblings(s.frames, p, xs)
    ensures Siblings(s.frames - Sub(s.frames, xs[|xs| - 1]), p, xs[..|xs| - 1])
  {
    var x, front := xs[|xs| - 1], xs[..|xs| - 1];
    forall i | 0 <= i < |front|
      ensures front[i] !in Sub(s.frames, x)
    {
      SiblingsApart(s.frames, p, front[i], x);
    }
  }

  /** What is left of the siblings once the last one and everything below it are erased. */
  lemma LastErased(s: State, p: Id, xs: seq<Id>)
    requires xs != [] && HandleInv(s) && Siblings(s.frames, p, xs) && NoneRunning(s, SubAll(s.frames, xs))
    ensures var (x, front) := (xs[|xs| - 1], xs[..|xs| - 1]);
      var t := Erase(s, Sub(s.frames, x));
      && NoneRunning(s, Sub(s.frames, x))
      && HandleInv(t) && Siblings(t.frames, p, front) && NoneRunning(t, SubAll(t.frames, front))
      && Erase(t, SubAll(t.frames, front)) == Erase(s, SubAll(s.frames, xs))
  {
    var f, x, front := s.frames, xs[|xs| - 1], xs[..|xs| - 1];
    SubClosed(f, x);
    EraseHandles(s, Sub(f, x));
    SiblingsLeft(s, p, xs);
    SubAllErased(f, Sub(f, x), front);
    EraseTwice(s, Sub(f, x), SubAll(f, front) - Sub(f, x));
    assert Sub(f, x) + (SubAll(f, front) - Sub(f, x)) == SubAll(f, xs);
  }

  /** What executing code on top of the stack owns is neither running nor needed by what is. */
  lemma TopSevers(s: State, gone: set<Id>)
    requires Inv(s) || (s.stack != [] && InvBut(s, Some(Top(s))))
    requires s.stack != [] && Closed(s.frames, gone)
    requires forall d :: d in gone ==> Top(s) < d
    requires forall d :: d in gone && d in s.frames && s.frames[d].owner.Some? && s.frames[d].owner.value !in gone ==>
      s.frames[d].owner == Some(Top(s))
    requires !s.frames[Top(s)].comb.NoComb? ==> forall k :: k in s.frames[Top(s)].comb.kids ==> k in gone
    ensures Severs(s, gone, Some(Top(s)))
  {
    TopRuns(s);
    forall d | d in gone && d in s.frames
      ensures !s.frames[d].phase.Running?
    {
      if s.frames[d].phase.Running? {
        TopYoungest(s, d);
      }
    }
  }

  lemma SubAllCut(s: State, p: Id, xs: seq<Id>)
    requires TreeInv(s) && Siblings(s.frames, p, xs)
    ensures var gone := SubAll(s.frames, xs);
      && Closed(s.frames, gone)
      && (forall d :: d in gone ==> p < d)
      && (forall d :: d in gone && d in s.frames && s.frames[d].owner.Some? && s.frames[d].owner.value !in gone ==>
            s.frames[d].owner == Some(p))
      && (forall i :: 0 <= i < |xs| ==> xs[i] in gone)
  {
    var f := s.frames;
    var gone := SubAll(f, xs);
    forall d | d in f && f[d].owner.Some? && f[d].owner.value in gone
      ensures d in gone
    {
      SubAllHas(f, xs, f[d].owner.value);
      var i :| 0 <= i < |xs| && f[d].owner.value in Sub(f, xs[i]);
      assert d in Sub(f, xs[i]);
      SubAllHas(f, xs, d);
    }
    forall d | d in gone
      ensures p < d && (d in f && f[d].owner.Some? && f[d].owner.value !in gone ==> f[d].owner == Some(p))
    {
      SubAllHas(f, xs, d);
      var i :| 0 <= i < |xs| && d in Sub(f, xs[i]);
      UnderBounds(f, d, xs[i]);
      if d != xs[i] {
        SubAllHas(f, xs, f[d].owner.value);
        UnderBounds(f, f[d].owner.value, xs[i]);
        assert f[d].owner.value in Sub(f, xs[i]);
      }
    }
    forall i | 0 <= i < |xs|
      ensures xs[i] in gone
    {
      assert xs[i] in Sub(f, xs[i]);
      SubAllHas(f, xs, xs[i]);
    }
  }

  lemma HandlesFromInv(s: State, but: Option<Id>)
    requires InvBut(s, but)
    ensures HandleInv(s)
  {
  }

  /** Tasks owned by the running coroutine are destroyed; its combinator, if any, ends with them. */
  lemma DestroyOwned(s: State, xs: seq<Id>)
    requires s.stack != [] && InvBut(s, Some(Top(s))) && Siblings(s.frames, Top(s), xs)
    requires Top(s) in s.frames
    requires !s.frames[Top(s)].comb.NoComb? ==> s.frames[Top(s)].comb.kids == xs
    ensures DestroyAll(s, xs) == Erase(s, SubAll(s.frames, xs))
    ensures Severs(s, SubAll(s.frames, xs), Some(Top(s)))
    ensures Inv(SetComb(DestroyAll(s, xs), Top(s), NoComb))
  {
    var gone := SubAll(s.frames, xs);
    SubAllCut(s, Top(s), xs);
    TopSevers(s, gone);
    HandlesFromInv(s, Some(Top(s)));
    DestroyAllErases(s, Top(s), xs);
    EraseInv(s, gone, Some(Top(s)));
  }

  lemma EndCombinatorInv(s: State)
    requires s.stack != [] && InvBut(s, Some(Top(s))) && Top(s) in s.frames && !s.frames[Top(s)].comb.NoComb?
    requires Siblings(s.frames, Top(s), s.frames[Top(s)].comb.kids)
    ensures Inv(EndCombinator(s, Top(s)))
  {
    DestroyOwned(s, s.frames[Top(s)].comb.kids);
  }

  lemma KidsAreSiblings(s: State, p: Id)
    requires TreeInv(s) && p in s.frames && !s.frames[p].comb.NoComb? && CombOk(s.frames, p)
    ensures Siblings(s.frames, p, s.frames[p].comb.kids)
  {
    var kids := s.frames[p].comb.kids;
    forall i | 0 <= i < |kids|
      ensures kids[i] in s.frames && s.frames[kids[i]].owner == Some(p) && p < kids[i]
    {
      assert s.frames[kids[i]].owner == Some(p);
    }
  }

  // ---------------------------------------------------------------------------
  // Cancel and detach
  // ---------------------------------------------------------------------------

  lemma OneIsAll(s: State, x: Id)
    ensures DestroyFrame(s, x) == DestroyAll(s, [x]) && SubAll(s.frames, [x]) == Sub(s.frames, x)
  {
    assert [x][..0] == [];
    assert DestroyAll(DestroyFrame(s, x), []) == DestroyFrame(s, x);
    assert SubAll(s.frames, []) == {};
  }

  lemma CancelOwned(s: State, x: Id)
    requires Inv(s) && OwnedByTop(s, x)
    ensures Inv(DestroyFrame(s, x)) && DestroyFrame(s, x) == Erase(s, Sub(s.frames, x))
  {
    var r := Top(s);
    assert s.frames[x].owner == Some(r);
    OneIsAll(s, x);
    DestroyOwned(s, [x]);
    var t := DestroyAll(s, [x]);
    assert r in t.frames && t.frames[r] == s.frames[r];
    assert t.frames[r := t.frames[r].(comb := NoComb)] == t.frames;
    assert SetComb(t, r, NoComb) == t;
  }

  lemma CancelRoot(s: State, x: Id)
    requires Inv(s) && Root(s, x) && NoneRunning(s, Sub(s.frames, x))
    ensures Inv(DestroyFrame(s, x)) && DestroyFrame(s, x) == Erase(s, Sub(s.frames, x))
  {
    var gone := Sub(s.frames, x);
    SubClosed(s.frames, x);
    forall d | d in gone && s.frames[d].owner.Some?
      ensures s.frames[d].owner.value in gone
    {
      UnderBounds(s.frames, d, x);
      if d != x {
        UnderBounds(s.frames, s.frames[d].owner.value, x);
      }
    }
    HandlesFromInv(s, None);
    DestroyFrameErases(s, x);
    EraseInv(s, gone, None);
  }

  lemma CancelKeeps(s: State, x: Id)
    requires Inv(s) && Enabled(s, Cancel(x))
    ensures Inv(Apply(s, Cancel(x))) && Apply(s, Cancel(x)) == Erase(s, Sub(s.frames, x))
  {
    if OwnedByTop(s, x) {
      CancelOwned(s, x);
    } else {
      CancelRoot(s, x);
    }
  }

  ghost predicate Released(s: State, t: State, x: Id) {
    && x in s.frames && SameWaits(s, t) && t.stack == s.stack
    && s.frames[x].phase.Suspended? && s.frames[x].link.NoLink?
    && t.frames == s.frames[x := s.frames[x].(detached := true, link := NoLink, owner := None)]
  }

  lemma ReleasedTree(s: State, t: State, x: Id)
    requires TreeInv(s) && LinkInv(s) && Released(s, t, x)
    ensures TreeInv(t) && LinkInv(t)
  {
    assert ContinueInv(t.frames);
    assert OnChildInv(t.frames);
    assert NotifyInv(t.frames);
  }

  lemma ReleasedStack(s: State, t: State, x: Id)
    requires StackInv(s) && Released(s, t, x)
    requires s.frames[x].owner.None? || (s.stack != [] && Top(s) < x)
    ensures StackInv(t)
  {
    forall j | 0 < j < |s.stack|
      ensures Under(t.frames, s.stack[j].cur, s.stack[j].base)
    {
      if j < |s.stack| - 1 {
        StackDistinct(s, j, |s.stack| - 1);
      }
      UnderSame(s.frames, t.frames, s.stack[j].cur, s.stack[j].base);
    }
  }

  lemma ReleasedCombs(s: State, t: State, x: Id)
    requires CombInv(s.frames, None) && Released(s, t, x)
    ensures CombInv(t.frames, None)
  {
    forall q | q in s.frames
      ensures CombOk(t.frames, q)
    {
      assert CombOk(s.frames, q);
      LoneKid(s, x, q);
      CombFrame(s.frames, t.frames, q);
    }
  }

  lemma Unlinked(s: State, x: Id)
    requires Inv(s) && x in s.frames && (OwnedByTop(s, x) || s.frames[x].owner.None?) && !s.frames[x].phase.Done?
    ensures s.frames[x].link.NoLink?
  {
    if OwnedByTop(s, x) {
      TopRuns(s);
    }
  }

  lemma OwnedNotRunning(s: State, x: Id)
    requires Inv(s) && OwnedByTop(s, x)
    ensures !s.frames[x].phase.Running? && Top(s) < x
  {
    if s.frames[x].phase.Running? {
      TopYoungest(s, x);
    }
  }

  lemma NoHeirs(s: State, x: Id)
    requires Inv(s) && x in s.frames && (s.frames[x].phase.NeverRun? || s.frames[x].phase.Done?)
    ensures Sub(s.frames, x) == {x}
  {
    forall d | d in s.frames
      ensures s.frames[d].owner != Some(x)
    {
    }
    assert Kids(s.frames, x) == {};
    Childless(s, x);
  }

  lemma DetachKeeps(s: State, x: Id)
    requires Inv(s) && Enabled(s, Detach(x))
    ensures Inv(Apply(s, Detach(x)))
  {
    var t := Apply(s, Detach(x));
    if OwnedByTop(s, x) {
      OwnedNotRunning(s, x);
    }
    if s.frames[x].phase.Done? || s.frames[x].phase.NeverRun? {
      NoHeirs(s, x);
      if OwnedByTop(s, x) {
        CancelOwned(s, x);
      } else {
        CancelRoot(s, x);
      }
    } else {
      Unlinked(s, x);
      assert Released(s, t, x);
      ReleasedTree(s, t, x);
      ReleasedStack(s, t, x);
      ReleasedCombs(s, t, x);
      WaitsKept(s, t);
    }
  }

  // ---------------------------------------------------------------------------
  // Deciding a combinator
  // ---------------------------------------------------------------------------

  /** `p` on top of the stack suspends in its combinator, now in state `c`. */
  ghost predicate Parked(s: State, t: State, p: Id, c: Comb) {
    && s.stack != [] && p == Top(s) && p in s.frames && s.frames[p].phase.Running? && SameWaits(s, t)
    && !c.NoComb? && !s.frames[p].comb.NoComb? && c.kids == s.frames[p].comb.kids
    && t.stack == s.stack[..|s.stack| - 1]
    && t.frames == s.frames[p := s.frames[p].(comb := c, phase := Suspended(OnCombinator))]
  }

  lemma ParkedTree(s: State, t: State, p: Id, c: Comb)
    requires TreeInv(s) && LinkInv(s) && Parked(s, t, p, c)
    ensures TreeInv(t) && LinkInv(t)
  {
    assert ContinueInv(t.frames);
    assert OnChildInv(t.frames);
    assert NotifyInv(t.frames);
  }

  lemma ParkedStack(s: State, t: State, p: Id, c: Comb)
    requires StackInv(s) && Parked(s, t, p, c)
    ensures StackInv(t)
  {
    var u := LeaveTop(s, OnCombinator);
    LeaveStack(s, OnCombinator);
    StackSame(u, t, |u.stack|);
  }

  lemma ParkedOthers(s: State, t: State, p: Id, c: Comb, q: Id)
    requires Parked(s, t, p, c) && q in s.frames && q != p && CombOk(s.frames, q)
    ensures CombOk(t.frames, q)
  {
    CombFrame(s.frames, t.frames, q);
  }

  lemma ParkedInv(s: State, t: State, p: Id, c: Comb)
    requires Inv(s) && Parked(s, t, p, c) && CombOk(t.frames, p)
    ensures Inv(t)
  {
    ParkedTree(s, t, p, c);
    ParkedStack(s, t, p, c);
    WaitsKept(s, t);
    forall q | q in s.frames && q != p
      ensures CombOk(t.frames, q)
    {
      assert CombOk(s.frames, q);
      ParkedOthers(s, t, p, c, q);
    }
  }

  lemma ParkedComb(s: State, t: State, p: Id, c: Comb)
    requires Parked(s, t, p, c) && CombOk(s.frames, p) && TreeInv(s)
    requires match s.frames[p].comb
      case NoComb => false
      case All(kids, started, remaining, caller) =>
        started == |kids| && remaining > 1 && c == All(kids, started, remaining - 1, caller)
      case Any(kids, started, winner, stage, caller) =>
        started == |kids| && winner.None? && c == Any(kids, started, winner, 1, caller)
    ensures CombOk(t.frames, p)
  {
    KidsAreSiblings(s, p);
    UnfinishedSame(s.frames, t.frames, c.kids);
  }

  lemma DecideParks(s: State)
    requires Enabled(s, Decide) && s.frames[Top(s)].phase.Running?
    ensures var p := Top(s);
      var t := Apply(s, Decide);
      match s.frames[p].comb
      case NoComb => true
      case All(kids, started, remaining, caller) =>
        if remaining > 1 then Parked(s, t, p, All(kids, started, remaining - 1, caller)) else t == EndCombinator(s, p)
      case Any(kids, started, winner, stage, caller) =>
        if started < |kids| || stage == 2 || winner.Some? then t == EndCombinator(s, p)
        else Parked(s, t, p, Any(kids, started, winner, 1, caller))
  {
  }

  lemma DecideKeeps(s: State)
    requires Inv(s) && Enabled(s, Decide)
    ensures Inv(Apply(s, Decide))
  {
    var p, t := Top(s), Apply(s, Decide);
    TopRuns(s);
    assert CombOk(s.frames, p);
    DecideParks(s);
    if t == EndCombinator(s, p) {
      KidsAreSiblings(s, p);
      EndCombinatorInv(s);
    } else {
      var c := t.frames[p].comb;
      ParkedComb(s, t, p, c);
      ParkedInv(s, t, p, c);
    }
  }

  // ---------------------------------------------------------------------------
  // Resuming from the ready ring
  // ---------------------------------------------------------------------------

  ghost predicate Woken(s: State, t: State, h: Id) {
    && s.ready != [] && h == s.ready[0] && h in s.frames && s.frames[h].phase == Suspended(InReady)
    && s.stack == [] && t.stack == [Act(h, h)] && t.ready == s.ready[1..] && t.places == s.places
    && t.next == s.next && t.fault == s.fault
    && t.frames == s.frames[h := s.frames[h].(phase := Running)]
  }

  lemma WokenInv(s: State, t: State, h: Id)
    requires Inv(s) && Woken(s, t, h)
    ensures InvBut(t, Some(h))
  {
    assert Rephased(s.frames, t.frames, h);
    RephasedTree(s, t, h);
    RephasedLinks(s, t, h);
    RephasedPlaces(s, t, h);
    assert ReadyInv(t) by {
      assert h !in s.ready[1..];
    }
    assert t.stack[0].cur == h;
    assert StackInv(t) by {
      WokenStack(s, t, h);
    }
    forall q | q in t.frames && q != h
      ensures CombOk(t.frames, q)
    {
      RephasedOthers(s.frames, t.frames, h, q);
    }
  }

  lemma WokenStack(s: State, t: State, h: Id)
    requires StackInv(s) && Woken(s, t, h)
    ensures StackInv(t)
  {
    assert t.stack[0].cur == h;
    forall q | q in s.frames && q != h
      ensures !s.frames[q].phase.Running?
    {
      assert !OnStack(s.stack, q);
    }
  }

  /** The handle at the head of the ring is a suspended coroutine that waits nowhere else. */
  lemma DispatchShape(s: State)
    requires Inv(s) && Enabled(s, Dispatch)
    ensures var h := s.ready[0];
      && h in s.frames && s.frames[h].phase == Suspended(InReady)
      && var w := SetPhase(s.(ready := s.ready[1..]), h, Running).(stack := [Act(h, h)]);
        Woken(s, w, h) && Apply(s, Dispatch) == EndCombinator(w, h)
  {
    assert s.ready[0] in s.ready;
  }

  /** The awaiter of the resumed coroutine ends. */
  lemma WokenEnds(s: State, w: State, h: Id)
    requires Inv(s) && Woken(s, w, h)
    ensures Inv(EndCombinator(w, h))
  {
    WokenInv(s, w, h);
    if w.frames[h].comb.NoComb? {
      assert CombOk(w.frames, h);
    } else {
      assert CombOk(s.frames, h);
      KidsAreSiblings(s, h);
      forall i | 0 <= i < |w.frames[h].comb.kids|
        ensures w.frames[h].comb.kids[i] in w.frames && w.frames[w.frames[h].comb.kids[i]].owner == Some(h)
      {
      }
      EndCombinatorInv(w);
    }
  }

  lemma DispatchKeeps(s: State)
    requires Inv(s) && Enabled(s, Dispatch)
    ensures Inv(Apply(s, Dispatch))
  {
    var h := s.ready[0];
    DispatchShape(s);
    WokenEnds(s, SetPhase(s.(ready := s.ready[1..]), h, Running).(stack := [Act(h, h)]), h);
  }

  // ---------------------------------------------------------------------------
  // Finishing
  // ---------------------------------------------------------------------------

  /** The tasks living in `r` and below are cut off only from `r`. */
  lemma LocalsBelow(s: State, r: Id)
    requires TreeInv(s) && r in s.frames
    ensures var gone := Sub(s.frames, r) - {r};
      && Kids(s.frames, r) <= gone
      && forall d :: d in gone ==>
           && r < d
           && (s.frames[d].owner.Some? && s.frames[d].owner.value !in gone ==> s.frames[d].owner == Some(r))
  {
    var gone := Sub(s.frames, r) - {r};
    SubClosed(s.frames, r);
    forall d | d in gone
      ensures r < d && (s.frames[d].owner.Some? && s.frames[d].owner.value !in gone ==> s.frames[d].owner == Some(r))
    {
      UnderBounds(s.frames, d, r);
      assert Under(s.frames, s.frames[d].owner.value, r);
    }
    forall d | d in Kids(s.frames, r)
      ensures d in gone
    {
      assert Under(s.frames, r, r);
      assert Under(s.frames, d, r);
      assert s.frames[d].owner == Some(r);
    }
  }

  /** The tasks living in the finishing coroutine go first. */
  lemma LocalsGone(s: State)
    requires Inv(s) && Executing(s)
    ensures var t := DestroyKids(s, Top(s));
      && Inv(t) && Executing(t) && t.stack == s.stack && Kids(t.frames, Top(s)) == {}
      && t.frames[Top(s)] == s.frames[Top(s)]
  {
    var r := Top(s);
    var gone := Sub(s.frames, r) - {r};
    TopRuns(s);
    LocalsErased(s, r);
    EraseInv(s, gone, Some(r));
    var t := Erase(s, gone);
    assert t.frames[r := t.frames[r].(comb := NoComb)] == t.frames;
  }

  lemma LocalsErased(s: State, r: Id)
    requires Inv(s) && Executing(s) && r == Top(s) && r in s.frames
    ensures var gone := Sub(s.frames, r) - {r};
      DestroyKids(s, r) == Erase(s, gone) && Severs(s, gone, Some(r)) && Kids(s.frames, r) <= gone
  {
    SubClosed(s.frames, r);
    LocalsBelow(s, r);
    TopSevers(s, Sub(s.frames, r) - {r});
    HandlesFromInv(s, None);
    DestroyKidsErases(s, r);
  }

  /** The coroutine `r` on top of the stack is done; control returns to whoever resumed it. */
  ghost predicate Ended(s: State, t: State, r: Id) {
    && Executing(s) && r == Top(s) && s.frames[r].phase.Running? && !s.frames[r].detached
    && Kids(s.frames, r) == {} && SameWaits(s, t) && t.stack == s.stack[..|s.stack| - 1]
    && t.frames == s.frames[r := s.frames[r].(phase := Done)]
  }

  lemma EndedTree(s: State, t: State, r: Id)
    requires TreeInv(s) && Ended(s, t, r)
    ensures TreeInv(t)
  {
    forall d | d in s.frames
      ensures s.frames[d].owner != Some(r)
    {
      assert d !in Kids(s.frames, r);
    }
  }

  lemma EndedLinks(s: State, t: State, r: Id)
    requires LinkInv(s) && Ended(s, t, r) && !s.frames[r].link.Continue?
    ensures LinkInv(t)
  {
    assert ContinueInv(t.frames);
    assert OnChildInv(t.frames);
    assert FreshInv(t.frames);
    assert NotifyInv(t.frames);
  }

  lemma EndedStack(s: State, t: State, r: Id)
    requires StackInv(s) && Ended(s, t, r)
    ensures StackInv(t)
  {
    var u := LeaveTop(s, Nowhere);
    LeaveStack(s, Nowhere);
    StackSame(u, t, |u.stack|);
  }

  lemma EndedInv(s: State, t: State, r: Id, but: Option<Id>)
    requires Inv(s) && Ended(s, t, r) && !s.frames[r].link.Continue?
    requires s.frames[r].link.Notify? ==> but == Some(s.frames[r].link.to)
    ensures InvBut(t, but)
  {
    EndedTree(s, t, r);
    EndedLinks(s, t, r);
    EndedStack(s, t, r);
    WaitsKept(s, t);
    forall q | q in s.frames && Some(q) != but
      ensures CombOk(t.frames, q)
    {
      assert CombOk(s.frames, q);
      if q != r {
        NotItsKid(s, r, q);
        CombFrame(s.frames, t.frames, q);
      }
    }
  }

  lemma NotItsKid(s: State, r: Id, q: Id)
    requires q in s.frames && r in s.frames && CombOk(s.frames, q) && s.frames[r].link != Notify(q)
    ensures !s.frames[q].comb.NoComb? ==> r !in s.frames[q].comb.kids
  {
  }

  lemma {:induction false} UnfinishedDrops(f: Frames, g: Frames, kids: seq<Id>, r: Id)
    requires NoDups(kids) && r in kids && r in f && !f[r].phase.Done? && g == f[r := f[r].(phase := Done)]
    requires forall k :: k in kids ==> k in f
    ensures Unfinished(f, kids) == Unfinished(g, kids) + 1
  {
    if kids[0] == r {
      assert r !in kids[1..];
      UnfinishedSame(f, g, kids[1..]);
    } else {
      UnfinishedDrops(f, g, kids[1..], r);
    }
  }

  /** The combinator frame `p` takes the state `c` and, if `woken`, loses its place. */
  ghost predicate Recombined(s: State, t: State, p: Id, c: Comb, woken: bool) {
    && p in s.frames && SameWaits(s, t) && t.stack == s.stack
    && !c.NoComb? && !s.frames[p].comb.NoComb? && c.kids == s.frames[p].comb.kids
    && (woken ==> s.frames[p].phase == Suspended(OnCombinator))
    && t.frames ==
      s.frames[p := s.frames[p].(comb := c, phase := if woken then Suspended(Nowhere) else s.frames[p].phase)]
  }

  lemma RecombinedLinks(s: State, t: State, p: Id, c: Comb, woken: bool)
    requires TreeInv(s) && LinkInv(s) && StackInv(s) && Recombined(s, t, p, c, woken)
    ensures TreeInv(t) && LinkInv(t)
  {
    assert ContinueInv(t.frames);
    assert OnChildInv(t.frames);
    assert NotifyInv(t.frames);
  }

  lemma RecombinedStack(s: State, t: State, p: Id, c: Comb, woken: bool)
    requires StackInv(s) && Recombined(s, t, p, c, woken)
    ensures StackInv(t)
  {
    StackSame(s, t, |s.stack|);
  }

  lemma RecombinedOthers(s: State, t: State, p: Id, c: Comb, woken: bool, q: Id)
    requires Recombined(s, t, p, c, woken) && q in s.frames && q != p && CombOk(s.frames, q)
    ensures CombOk(t.frames, q)
  {
    CombFrame(s.frames, t.frames, q);
  }

  lemma RecombinedInv(s: State, t: State, p: Id, c: Comb, woken: bool)
    requires InvBut(s, Some(p)) && Recombined(s, t, p, c, woken) && CombOk(t.frames, p)
    ensures Inv(t)
  {
    RecombinedLinks(s, t, p, c, woken);
    RecombinedStack(s, t, p, c, woken);
    WaitsKept(s, t);
    forall q | q in s.frames && q != p
      ensures CombOk(t.frames, q)
    {
      assert CombOk(s.frames, q);
      RecombinedOthers(s, t, p, c, woken, q);
    }
  }

  /** What `notify_done` and `notify_winner` do to the combinator's state, and whether they post. */
  function Notified(c: Comb, r: Id): (Comb, bool)
    requires !c.NoComb? && (c.All? ==> c.remaining > 0)
  {
    match c
    case All(kids, started, remaining, caller) =>
      if remaining == 1 && caller then (All(kids, started, 0, false), true)
      else (All(kids, started, remaining - 1, caller), false)
    case Any(kids, started, winner, stage, caller) =>
      if winner.Some? then (c, false)
      else if stage == 1 && caller then (Any(kids, started, Some(r), 2, false), true)
      else (Any(kids, started, Some(r), 2, caller), false)
  }

  /** A child's completion keeps its combinator consistent, and posts only a suspended caller. */
  lemma NotifiedComb(f: Frames, g: Frames, p: Id, r: Id)
    requires p in f && CombOk(f, p) && !f[p].comb.NoComb? && r in f[p].comb.kids && p != r && p !in f[p].comb.kids
    requires r in f && f[r].phase.Running? && g == f[r := f[r].(phase := Done)]
    ensures f[p].comb.All? ==> f[p].comb.remaining > 0
    ensures var (c, woken) := Notified(f[p].comb, r);
      && (woken ==> f[p].phase == Suspended(OnCombinator))
      && CombOk(g[p := g[p].(comb := c, phase := if woken then Suspended(Nowhere) else g[p].phase)], p)
  {
    var kids := f[p].comb.kids;
    UnfinishedDrops(f, g, kids, r);
    UnfinishedPositive(f, kids, r);
    var (c, woken) := Notified(f[p].comb, r);
    var h := g[p := g[p].(comb := c, phase := if woken then Suspended(Nowhere) else g[p].phase)];
    UnfinishedSame(g, h, kids);
  }

  lemma {:induction false} UnfinishedPositive(f: Frames, kids: seq<Id>, r: Id)
    requires r in kids && r in f && !f[r].phase.Done?
    ensures Unfinished(f, kids) > 0
  {
    if kids[0] != r {
      UnfinishedPositive(f, kids[1..], r);
    }
  }

  lemma NotifyIs(s: State, p: Id, r: Id)
    requires p in s.frames && !s.frames[p].comb.NoComb? && (s.frames[p].comb.All? ==> s.frames[p].comb.remaining > 0)
    ensures var (c, woken) := Notified(s.frames[p].comb, r);
      NotifyParent(s, p, r) ==
      if woken then Post(SetPhase(SetComb(s, p, c), p, Suspended(Nowhere)), p) else SetComb(s, p, c)
  {
    var (c, woken) := Notified(s.frames[p].comb, r);
    var u := SetComb(s, p, c);
    assert forall w, v ::
      u.frames[p := u.frames[p].(phase := w)][p := u.frames[p].(phase := v)] == u.frames[p := u.frames[p].(phase := v)];
    assert s.frames[p := s.frames[p]] == s.frames;
    assert s.frames[p].(comb := s.frames[p].comb) == s.frames[p];
  }

  /** The notified combinator and, if its caller is due, the post. */
  lemma NotifiedInv(t: State, r: Id, p: Id, c: Comb, woken: bool)
    requires InvBut(t, Some(p)) && p in t.frames && !t.frames[p].comb.NoComb?
    requires (t.frames[p].comb.All? ==> t.frames[p].comb.remaining > 0) && (c, woken) == Notified(t.frames[p].comb, r)
    requires woken ==> t.frames[p].phase == Suspended(OnCombinator)
    requires var ph := if woken then Suspended(Nowhere) else t.frames[p].phase;
      CombOk(t.frames[p := t.frames[p].(comb := c, phase := ph)], p)
    ensures Inv(NotifyParent(t, p, r))
  {
    NotifyIs(t, p, r);
    var u := if woken then SetPhase(SetComb(t, p, c), p, Suspended(Nowhere)) else SetComb(t, p, c);
    RecombineIs(t, p, c, woken);
    RecombinedInv(t, u, p, c, woken);
    if woken {
      PostInv(u, p);
    }
  }

  lemma RecombineIs(t: State, p: Id, c: Comb, woken: bool)
    requires p in t.frames && !t.frames[p].comb.NoComb? && !c.NoComb? && c.kids == t.frames[p].comb.kids
    requires woken ==> t.frames[p].phase == Suspended(OnCombinator)
    ensures var u := if woken then SetPhase(SetComb(t, p, c), p, Suspended(Nowhere)) else SetComb(t, p, c);
      Recombined(t, u, p, c, woken)
  {
    var f := SetComb(t, p, c).frames;
    assert forall w :: f[p := f[p].(phase := w)] == t.frames[p := t.frames[p].(comb := c, phase := w)];
    assert t.frames[p].(comb := c, phase := t.frames[p].phase) == t.frames[p].(comb := c);
  }

  lemma NotifyKeeps(s: State, t: State, r: Id, p: Id)
    requires Inv(s) && Ended(s, t, r) && s.frames[r].link == Notify(p)
    ensures Inv(NotifyParent(t, p, r))
  {
    EndedInv(s, t, r, Some(p));
    HookedKid(s, r, p);
    NotifiedComb(s.frames, t.frames, p, r);
    var (c, woken) := Notified(s.frames[p].comb, r);
    NotifiedInv(t, r, p, c, woken);
  }

  lemma HookedKid(s: State, r: Id, p: Id)
    requires Inv(s) && r in s.frames && s.frames[r].link == Notify(p)
    ensures p in s.frames && p < r && CombOk(s.frames, p) && !s.frames[p].comb.NoComb?
    ensures r in s.frames[p].comb.kids && p !in s.frames[p].comb.kids
  {
    assert s.frames[r].owner == Some(p);
    KidsAreSiblings(s, p);
  }

  lemma PopPost(s: State, p: Id, c: Comb)
    requires s.stack != []
    ensures Pop(SetComb(s, p, c)) == SetComb(Pop(s), p, c) && SetComb(s, p, c).stack == s.stack
    ensures Pop(Post(s, p)) == Post(Pop(s), p) && Post(s, p).stack == s.stack
  {
  }

  lemma PopNotify(s: State, p: Id, r: Id)
    requires s.stack != []
    ensures NotifyParent(s, p, r).stack == s.stack
    ensures Pop(NotifyParent(s, p, r)) == NotifyParent(Pop(s), p, r)
  {
    if p in s.frames && !s.frames[p].comb.NoComb? && (s.frames[p].comb.All? ==> s.frames[p].comb.remaining > 0) {
      var (c, woken) := Notified(s.frames[p].comb, r);
      PopPost(s, p, c);
      PopPost(SetComb(s, p, c), p, c);
    }
  }

  /** The finished coroutine hands over to the one that awaits it. */
  ghost predicate Resumed(s: State, t: State, r: Id, k: Id) {
    && Executing(s) && r == Top(s) && s.frames[r].phase.Running? && !s.frames[r].detached
    && Kids(s.frames, r) == {} && SameWaits(s, t) && t.stack == SetTop(s, k).stack
    && s.frames[r].link == Continue(k) && k in s.frames && k < r && s.frames[r].owner == Some(k)
    && s.frames[k].phase == Suspended(OnChild(r)) && s.frames[k].comb.NoComb?
    && t.frames == s.frames[r := s.frames[r].(phase := Done)][k := s.frames[k].(phase := Running)]
  }

  lemma ResumedTree(s: State, t: State, r: Id, k: Id)
    requires TreeInv(s) && Resumed(s, t, r, k)
    ensures TreeInv(t)
  {
    forall d | d in s.frames
      ensures s.frames[d].owner != Some(r)
    {
      assert d !in Kids(s.frames, r);
    }
  }

  lemma ResumedLinks(s: State, t: State, r: Id, k: Id)
    requires LinkInv(s) && Resumed(s, t, r, k)
    ensures LinkInv(t)
  {
    assert ContinueInv(t.frames);
    assert OnChildInv(t.frames);
    assert FreshInv(t.frames);
    assert NotifyInv(t.frames);
  }

  lemma ResumedStack(s: State, t: State, r: Id, k: Id)
    requires StackInv(s) && Resumed(s, t, r, k)
    ensures StackInv(t)
  {
    assert Handed(s, t, k);
    var n := |s.stack| - 1;
    if n > 0 {
      assert Under(s.frames, r, s.stack[n].base);
    }
    HandedStack(s, t, k);
  }

  lemma ResumedCombs(s: State, t: State, r: Id, k: Id)
    requires CombInv(s.frames, None) && Resumed(s, t, r, k)
    ensures CombInv(t.frames, None)
  {
    forall q | q in s.frames
      ensures CombOk(t.frames, q)
    {
      assert CombOk(s.frames, q);
      if q != r && q != k {
        NotItsKid(s, r, q);
        CombFrame(s.frames, t.frames, q);
      }
    }
  }

  lemma ResumedWaits(s: State, t: State, r: Id, k: Id)
    requires ReadyInv(s) && PlaceInv(s) && Resumed(s, t, r, k)
    ensures ReadyInv(t) && PlaceInv(t)
  {
    WaitsKept(s, t);
  }

  lemma ResumedInv(s: State, t: State, r: Id, k: Id)
    requires Inv(s) && Resumed(s, t, r, k)
    ensures Inv(t)
  {
    ResumedTree(s, t, r, k);
    ResumedLinks(s, t, r, k);
    ResumedStack(s, t, r, k);
    ResumedWaits(s, t, r, k);
    ResumedCombs(s, t, r, k);
  }

  /** Erasing a frame that no list holds only takes its storage. */
  lemma EraseUnheld(u: State, r: Id)
    requires ReadyInv(u) && PlaceInv(u) && r in u.frames && u.frames[r].phase == Suspended(Nowhere)
    ensures Erase(u, {r}) == u.(frames := u.frames - {r})
  {
    WithoutAbsent(u.ready, {r});
    forall p | p in u.places
      ensures Without(u.places[p], {r}) == u.places[p]
    {
      WithoutAbsent(u.places[p], {r});
    }
    assert Erase(u, {r}).places == u.places;
  }

  /** A detached coroutine frees its own frame; nothing in the ring names it. */
  lemma FreedInv(s: State, r: Id)
    requires Inv(s) && Executing(s) && r == Top(s) && s.frames[r].detached && Kids(s.frames, r) == {}
    ensures Inv(Pop(s.(frames := s.frames - {r})))
  {
    var u := LeaveTop(s, Nowhere);
    LeaveInv(s);
    LeftBehind(s);
    LeftAlone(s, r);
    EraseInv(u, {r}, None);
    EraseUnheld(u, r);
    assert u.frames - {r} == s.frames - {r};
  }

  lemma LeftAlone(s: State, r: Id)
    requires s.stack != [] && r == Top(s) && r in s.frames && Kids(s.frames, r) == {} && s.frames[r].owner.None?
    ensures Severs(LeaveTop(s, Nowhere), {r}, None)
  {
    forall d | d in s.frames
      ensures s.frames[d].owner != Some(r)
    {
      assert d !in Kids(s.frames, r);
    }
  }

  lemma AfterFinishKeeps(s: State)
    requires Inv(s) && Executing(s) && Kids(s.frames, Top(s)) == {} && !s.frames[Top(s)].detached
    ensures Inv(AfterFinish(SetPhase(s, Top(s), Done), Top(s), s.frames[Top(s)].link))
  {
    var r := Top(s);
    TopRuns(s);
    var u := SetPhase(s, r, Done);
    assert Ended(s, Pop(u), r);
    match s.frames[r].link
    case NoLink =>
      EndedInv(s, Pop(u), r, None);
    case Continue(k) =>
      AwaiterOf(s, r);
      assert Resumed(s, Transfer(u, k), r, k);
      ResumedInv(s, Transfer(u, k), r, k);
    case Notify(p) =>
      PopNotify(u, p, r);
      NotifyKeeps(s, Pop(u), r, p);
  }

  lemma AwaiterOf(s: State, r: Id)
    requires Inv(s) && r in s.frames && !s.frames[r].phase.Done? && s.frames[r].link.Continue?
    ensures var k := s.frames[r].link.to;
      && k in s.frames && k < r && s.frames[r].owner == Some(k)
      && s.frames[k].phase == Suspended(OnChild(r)) && s.frames[k].comb.NoComb?
  {
    assert s.frames[r].owner == Some(s.frames[r].link.to);
  }

  lemma FinishKeeps(s: State)
    requires Inv(s) && Enabled(s, Finish)
    ensures Inv(Apply(s, Finish))
  {
    LocalsGone(s);
    var t := DestroyKids(s, Top(s));
    if t.frames[Top(s)].detached {
      FreedInv(t, Top(s));
    } else {
      AfterFinishKeeps(t);
    }
  }

  // ---------------------------------------------------------------------------
  // Awaiting
  // ---------------------------------------------------------------------------

  /** A task that nobody holds is resumed by the coroutine that awaits it. */
  lemma AwaitKeeps(s: State, c: Id)
    requires Inv(s) && Enabled(s, Await(c)) && Orderly(s, Await(c))
    ensures Inv(Apply(s, Await(c)))
  {
    if !s.frames[c].phase.Done? {
      Unlinked(s, c);
      OwnedNotRunning(s, c);
      TopRuns(s);
      AwaitShape(s, c);
      var u := HandOver(s, c);
      AwaitedInv(s, u, c);
      AwaitedEnds(s, u, c);
    }
  }

  lemma AwaitedEnds(s: State, u: State, c: Id)
    requires Inv(s) && s.stack != [] && Awaited(s, u, Top(s), c) && u.stack == SetTop(s, c).stack && InvBut(u, Some(c))
    ensures Inv(EndCombinator(u, c))
    ensures s.frames[c].phase.NeverRun? ==> EndCombinator(u, c) == u
  {
    if u.frames[c].comb.NoComb? {
      assert CombOk(u.frames, c);
    } else {
      AwaitedSiblings(s, u, c);
      EndCombinatorInv(u);
    }
  }

  lemma AwaitedSiblings(s: State, u: State, c: Id)
    requires Inv(s) && s.stack != [] && Awaited(s, u, Top(s), c) && !s.frames[c].comb.NoComb?
    ensures Siblings(u.frames, c, u.frames[c].comb.kids)
  {
    assert CombOk(s.frames, c);
    KidsAreSiblings(s, c);
  }

  // ---------------------------------------------------------------------------
  // Every step
  // ---------------------------------------------------------------------------

  lemma StepKeeps(s: State, step: Step)
    requires Inv(s) && Enabled(s, step) && Orderly(s, step)
    ensures Inv(Apply(s, step))
  {
    match step
    case Create => CreateKeeps(s);
    case Start(x, release) => StartKeeps(s, x, release);
    case Await(c) => AwaitKeeps(s, c);
    case Suspend(p, front) => SuspendKeeps(s, p, front);
    case Yield => YieldKeeps(s);
    case Wake(p) => WakeKeeps(s, p);
    case Clear(p) => ClearKeeps(s, p);
    case Combine(kids, any) => CombineKeeps(s, kids, any);
    case StartKid => StartKidKeeps(s);
    case Decide => DecideKeeps(s);
    case Finish => FinishKeeps(s);
    case Cancel(x) => CancelKeeps(s, x);
    case Detach(x) => DetachKeeps(s, x);
    case Dispatch => DispatchKeeps(s);
  }
}
