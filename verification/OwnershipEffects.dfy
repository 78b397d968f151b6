/** What each step does, told by frames, wakers and order, and not by its definition. */
module OwnershipEffects {
  import opened Prelude
  import opened Ownership
  import opened OwnershipProofs
  import opened OwnershipSteps
  import opened OwnershipEnds
  import opened OwnershipSafety

  /** Every frame left, but those in `some`, is as it was. */
  ghost predicate OnlyIn(s: State, t: State, some: set<Id>) {
    forall h :: h in t.frames && h !in some ==> h in s.frames && t.frames[h] == s.frames[h]
  }

  ghost predicate SoleWaker(t: State, w: Holder, h: Id) {
    Holds(t, w, h) && forall v :: Holds(t, v, h) ==> v == w
  }

  ghost predicate SameWakers(s: State, t: State) {
    forall w, h :: Holds(t, w, h) <==> Holds(s, w, h)
  }

  lemma TheWaker(t: State, w: Holder, h: Id)
    requires Inv(t) && Holds(t, w, h)
    ensures SoleWaker(t, w, h)
  {
    forall v | Holds(t, v, h)
      ensures v == w
    {
      OneWaker(t, v, w, h);
    }
  }

  lemma NoWaker(t: State, h: Id)
    requires Inv(t) && h in t.frames && !t.frames[h].phase.Suspended? && t.frames[h].comb.NoComb?
    ensures forall w :: !Holds(t, w, h)
  {
    forall w | Holds(t, w, h)
      ensures false
    {
      StoredHandlesLive(t, w, h);
    }
  }

  // ---------------------------------------------------------------------------
  // Detaching, and the end of a detached task
  // ---------------------------------------------------------------------------

  /** A frame in no list takes nothing with it but its storage. */
  lemma EraseAlone(s: State, x: Id)
    requires x !in s.ready && forall p :: p in s.places ==> x !in s.places[p]
    ensures Erase(s, {x}) == s.(frames := s.frames - {x})
  {
    WithoutAbsent(s.ready, {x});
    forall p | p in s.places
      ensures Without(s.places[p], {x}) == s.places[p]
    {
      WithoutAbsent(s.places[p], {x});
    }
    assert Erase(s, {x}).places == s.places;
  }

  /** A detached task that was started and has not finished lives on: nobody owns it, nobody will be
      resumed at its end, and it keeps its phase, its combinator and its waker, as everybody else
      does. One that never ran or has finished goes, and it alone. */
  lemma DetachExact(s: State, x: Id)
    requires Inv(s) && Enabled(s, Detach(x))
    ensures var t, f := Apply(s, Detach(x)), s.frames[x];
      && t.stack == s.stack && t.dropped == s.dropped && OnlyIn(s, t, {x}) && SameWakers(s, t)
      && t.ready == s.ready && t.places == s.places
      && (f.phase.Suspended? ==>
            && t.frames.Keys == s.frames.Keys && t.frames[x].phase == f.phase && t.frames[x].comb == f.comb
            && t.frames[x].detached && t.frames[x].owner == None && t.frames[x].link == NoLink)
      && (!f.phase.Suspended? ==> (f.phase.NeverRun? || f.phase.Done?) && t.frames.Keys == s.frames.Keys - {x})
  {
    var t := Apply(s, Detach(x));
    if OwnedByTop(s, x) {
      OwnedNotRunning(s, x);
    }
    if s.frames[x].phase.Suspended? {
      Unlinked(s, x);
      ReleasedWakers(s, t, x);
    } else {
      GoneAlone(s, x);
    }
  }

  lemma ReleasedWakers(s: State, t: State, x: Id)
    requires Released(s, t, x)
    ensures SameWakers(s, t)
  {
    forall w, h
      ensures Holds(t, w, h) <==> Holds(s, w, h)
    {
      match w
      case InRing(_) =>
      case InPlace(_, _) =>
      case Continuation(_) =>
      case CallerSlot(_) =>
    }
  }

  /** The detached task never ran or has finished. */
  lemma GoneAlone(s: State, x: Id)
    requires Inv(s) && Enabled(s, Detach(x)) && (s.frames[x].phase.NeverRun? || s.frames[x].phase.Done?)
    ensures DestroyFrame(s, x) == s.(frames := s.frames - {x}) && SameWakers(s, DestroyFrame(s, x))
  {
    NoHeirs(s, x);
    if OwnedByTop(s, x) {
      CancelOwned(s, x);
    } else {
      CancelRoot(s, x);
    }
    EraseAlone(s, x);
    assert CombOk(s.frames, x);
    UnheldWakers(s, DestroyFrame(s, x), x);
  }

  lemma UnheldWakers(s: State, t: State, x: Id)
    requires t == s.(frames := s.frames - {x}) && x in s.frames && s.frames[x].comb.NoComb?
    requires s.frames[x].phase.Done? || !s.frames[x].link.Continue?
    ensures SameWakers(s, t)
  {
    forall w, h
      ensures Holds(t, w, h) <==> Holds(s, w, h)
    {
      match w
      case InRing(_) =>
      case InPlace(_, _) =>
      case Continuation(_) =>
      case CallerSlot(_) =>
    }
  }

  /** A set of frames is gone, from every list as well, and the rest is in its order. */
  ghost predicate Shrunk(s: State, t: State, gone: set<Id>) {
    && gone <= s.frames.Keys && t.frames.Keys == s.frames.Keys - gone
    && t.ready == Without(s.ready, gone) && t.dropped == s.dropped && t.cap == s.cap
    && forall p :: PlaceOf(t, p) == Without(PlaceOf(s, p), gone)
  }

  lemma ErasedShrinks(s: State, gone: set<Id>)
    requires gone <= s.frames.Keys
    ensures Shrunk(s, Erase(s, gone), gone)
  {
  }

  /** A running coroutine is in no list. */
  lemma Unlisted(s: State, r: Id)
    requires Inv(s) && r in s.frames && !s.frames[r].phase.Suspended?
    ensures r !in s.ready && forall p :: r !in PlaceOf(s, p)
  {
  }

  lemma WithoutToo(q: seq<Id>, gone: set<Id>, r: Id)
    requires r !in q
    ensures Without(q, gone + {r}) == Without(q, gone)
  {
    WithoutTwice(q, gone, {r});
    WithoutAbsent(Without(q, gone), {r});
  }

  /** Taking the storage of an unlisted frame as well changes no list further. */
  lemma ShrunkToo(s: State, u: State, gone: set<Id>, r: Id, t: State)
    requires Shrunk(s, u, gone) && r in s.frames && r !in s.ready && forall p :: r !in PlaceOf(s, p)
    requires t.frames == u.frames - {r} && t.ready == u.ready && t.places == u.places
    requires t.dropped == u.dropped && t.cap == u.cap
    ensures Shrunk(s, t, gone + {r})
  {
    WithoutToo(s.ready, gone, r);
    forall p
      ensures PlaceOf(t, p) == Without(PlaceOf(s, p), gone + {r})
    {
      WithoutToo(PlaceOf(s, p), gone, r);
      assert PlaceOf(t, p) == PlaceOf(u, p);
    }
  }

  /** A detached coroutine that ends frees its own frame with everything it owns; nobody is resumed
      or posted, and no other coroutine changes. */
  lemma DetachedFinish(s: State)
    requires Inv(s) && Enabled(s, Finish) && s.frames[Top(s)].detached
    ensures var t := Apply(s, Finish);
      && Shrunk(s, t, Sub(s.frames, Top(s))) && OnlyIn(s, t, {})
      && Top(s) !in t.frames && t.stack == s.stack[..|s.stack| - 1]
      && forall d, w :: d in Sub(s.frames, Top(s)) ==> !Holds(t, w, d)
  {
    var r, t := Top(s), Apply(s, Finish);
    TopRuns(s);
    Unlisted(s, r);
    assert Under(s.frames, r, r);
    var gone := Sub(s.frames, r) - {r};
    FreedShape(s, r, gone);
    ErasedShrinks(s, gone);
    ShrunkToo(s, Erase(s, gone), gone, r, t);
    assert gone + {r} == Sub(s.frames, r);
    FinishKeeps(s);
    NoneHeld(t, Sub(s.frames, r));
  }

  lemma FreedShape(s: State, r: Id, gone: set<Id>)
    requires Inv(s) && Enabled(s, Finish) && r == Top(s) && s.frames[r].detached && gone == Sub(s.frames, r) - {r}
    ensures var t, u := Apply(s, Finish), Erase(s, gone);
      && t.frames == u.frames - {r} && t.ready == u.ready && t.places == u.places
      && t.dropped == u.dropped && t.cap == u.cap && t.stack == s.stack[..|s.stack| - 1]
  {
    LocalsErased(s, r);
  }

  // ---------------------------------------------------------------------------
  // Combinators
  // ---------------------------------------------------------------------------

  lemma {:induction false} NoneUnfinished(f: Frames, kids: seq<Id>)
    requires forall k :: k in kids ==> k in f
    ensures Unfinished(f, kids) == 0 <==> forall k :: k in kids ==> f[k].phase.Done?
  {
    if kids != [] {
      NoneUnfinished(f, kids[1..]);
      assert kids[0] in kids;
      assert forall k :: k in kids[1..] ==> k in kids;
    }
  }

  lemma {:induction false} OneUnfinished(f: Frames, kids: seq<Id>, r: Id)
    requires NoDups(kids) && r in kids && forall k :: k in kids ==> k in f
    requires !f[r].phase.Done?
    ensures Unfinished(f, kids) == 1 <==> forall k :: k in kids && k != r ==> f[k].phase.Done?
  {
    assert kids[0] !in kids[1..];
    assert forall k :: k in kids <==> k == kids[0] || k in kids[1..];
    if kids[0] == r {
      NoneUnfinished(f, kids[1..]);
    } else {
      OneUnfinished(f, kids[1..], r);
      UnfinishedPositive(f, kids[1..], r);
    }
  }

  /** What the combinator in `p` leaves when it ends. */
  function Ends(f: Frames, p: Id): set<Id>
    requires p in f
  {
    if f[p].comb.NoComb? then {} else SubAll(f, f[p].comb.kids)
  }

  lemma {:induction false} SubAllIn(f: Frames, xs: seq<Id>)
    ensures SubAll(f, xs) <= f.Keys
  {
    if xs != [] {
      SubAllIn(f, xs[..|xs| - 1]);
    }
  }

  /** The awaiter of the coroutine that runs on top of the stack ends. */
  lemma EndShrinks(u: State, p: Id)
    requires u.stack != [] && p == Top(u) && InvBut(u, Some(p)) && p in u.frames
    requires u.frames[p].comb.NoComb? || Siblings(u.frames, p, u.frames[p].comb.kids)
    ensures var t := EndCombinator(u, p);
      && Shrunk(u, t, Ends(u.frames, p)) && OnlyIn(u, t, {p}) && t.stack == u.stack
      && p in t.frames && t.frames[p] == u.frames[p].(comb := NoComb)
  {
    if u.frames[p].comb.NoComb? {
      EraseNothing(u);
      ErasedShrinks(u, {});
      assert u.frames[p].(comb := NoComb) == u.frames[p];
    } else {
      var kids := u.frames[p].comb.kids;
      DestroyOwned(u, kids);
      SubAllCut(u, p, kids);
      SubAllIn(u.frames, kids);
      ErasedShrinks(u, SubAll(u.frames, kids));
      EndedShape(u, SubAll(u.frames, kids), p);
    }
  }

  lemma EndedShape(u: State, gone: set<Id>, p: Id)
    requires Shrunk(u, Erase(u, gone), gone) && p in u.frames && p !in gone
    ensures var t := SetComb(Erase(u, gone), p, NoComb);
      && Shrunk(u, t, gone) && OnlyIn(u, t, {p}) && t.stack == u.stack
      && p in t.frames && t.frames[p] == u.frames[p].(comb := NoComb)
  {
    var t := SetComb(Erase(u, gone), p, NoComb);
    assert forall q :: PlaceOf(t, q) == PlaceOf(Erase(u, gone), q);
  }

  /** What the combinator in `p` waits for has happened: of two children one has finished, or of all
      children all have. */
  ghost predicate Settled(f: Frames, p: Id)
    requires p in f
  {
    && (f[p].comb.All? ==> forall k :: k in f[p].comb.kids ==> k in f && f[k].phase.Done?)
    && (f[p].comb.Any? ==> exists k :: k in f[p].comb.kids && k in f && f[k].phase.Done?)
  }

  lemma SettledExactly(f: Frames, p: Id)
    requires p in f && CombOk(f, p) && f[p].phase.Running?
    ensures f[p].comb.All? ==> (Settled(f, p) <==> f[p].comb.remaining <= 1)
    ensures f[p].comb.Any? ==> (Settled(f, p) <==> f[p].comb.winner.Some?)
  {
    if f[p].comb.All? {
      NoneUnfinished(f, f[p].comb.kids);
    }
  }

  /** The caller of a combinator runs again: what it waited for has happened, and the children and
      everything they own have no frame and no handle held anywhere. */
  ghost predicate Over(s: State, t: State, h: Id) {
    && h in s.frames && Settled(s.frames, h) && OnlyIn(s, t, {h})
    && h in t.frames && t.frames[h].phase.Running? && t.frames[h].comb.NoComb?
    && t.frames.Keys == s.frames.Keys - Ends(s.frames, h)
    && forall d, w :: d in Ends(s.frames, h) ==> !Holds(t, w, d)
  }

  /** A combinator goes on at once exactly if what it waits for has happened; otherwise it suspends,
      its caller slot the only waker, and nobody else changes. */
  lemma DecideExact(s: State)
    requires Inv(s) && Enabled(s, Decide)
    ensures var p, t := Top(s), Apply(s, Decide);
      && (Settled(s.frames, p) ==> Over(s, t, p) && t.stack == s.stack)
      && (!Settled(s.frames, p) ==>
            && t.frames.Keys == s.frames.Keys && OnlyIn(s, t, {p}) && t.stack == s.stack[..|s.stack| - 1]
            && t.frames[p].phase.Suspended? && SoleWaker(t, CallerSlot(p), p))
  {
    var p := Top(s);
    TopRuns(s);
    assert CombOk(s.frames, p);
    SettledExactly(s.frames, p);
    if Settled(s.frames, p) {
      DecideEnds(s, p);
    } else {
      DecideSuspends(s, p);
    }
  }

  lemma DecideEnds(s: State, p: Id)
    requires Inv(s) && Enabled(s, Decide) && p == Top(s) && Settled(s.frames, p)
    requires s.frames[p].comb.All? ==> s.frames[p].comb.remaining <= 1
    requires s.frames[p].comb.Any? ==> s.frames[p].comb.winner.Some?
    ensures Over(s, Apply(s, Decide), p) && Apply(s, Decide).stack == s.stack
  {
    TopRuns(s);
    DecideParks(s);
    DecideKeeps(s);
    assert CombOk(s.frames, p);
    KidsAreSiblings(s, p);
    EndShrinks(s, p);
    NoneHeld(Apply(s, Decide), Ends(s.frames, p));
  }

  lemma DecideSuspends(s: State, p: Id)
    requires Inv(s) && Enabled(s, Decide) && p == Top(s)
    requires s.frames[p].comb.All? ==> s.frames[p].comb.remaining > 1
    requires s.frames[p].comb.Any? ==> s.frames[p].comb.winner.None?
    ensures var t := Apply(s, Decide);
      && t.frames.Keys == s.frames.Keys && OnlyIn(s, t, {p}) && t.stack == s.stack[..|s.stack| - 1]
      && t.frames[p].phase.Suspended? && SoleWaker(t, CallerSlot(p), p)
  {
    var t := Apply(s, Decide);
    TopRuns(s);
    assert CombOk(s.frames, p);
    DecideParks(s);
    DecideKeeps(s);
    assert Parked(s, t, p, t.frames[p].comb);
    assert CombOk(t.frames, p);
    TheWaker(t, CallerSlot(p), p);
  }

  /** The children wait to be started in their order, and each one hooks its end to the combinator. */
  lemma CombineExact(s: State, kids: seq<Id>, any: bool)
    requires Inv(s) && Enabled(s, Combine(kids, any))
    ensures var t, p := Apply(s, Combine(kids, any)), Top(s);
      && t.stack == s.stack && t.frames.Keys == s.frames.Keys && OnlyIn(s, t, {p} + set k | k in kids)
      && t.frames[p].comb.Any? == any && t.frames[p].comb.All? == !any
      && t.frames[p].comb.kids == kids && t.frames[p].comb.started == 0
      && (forall k :: k in kids ==> t.frames[k] == s.frames[k].(link := Notify(p)))
      && SoleWaker(t, CallerSlot(p), p)
  {
    CombineShape(s, kids, any);
    CombineKeeps(s, kids, any);
    TheWaker(Apply(s, Combine(kids, any)), CallerSlot(Top(s)), Top(s));
  }

  /** The next child in order, which never ran, runs on top of its combinator's caller. */
  lemma StartKidExact(s: State)
    requires Inv(s) && Enabled(s, StartKid)
    ensures var t, p, c := Apply(s, StartKid), Top(s), s.frames[Top(s)].comb;
      var k := c.kids[c.started];
      && k in s.frames && s.frames[k].phase.NeverRun? && t.stack == s.stack + [Act(k, k)]
      && t.frames.Keys == s.frames.Keys && OnlyIn(s, t, {p, k})
      && t.frames[k] == s.frames[k].(phase := Running)
      && t.frames[p] == s.frames[p].(comb := c.(started := c.started + 1))
  {
    StartKidShape(s);
  }

  // ---------------------------------------------------------------------------
  // Awaiting and ending
  // ---------------------------------------------------------------------------

  lemma SameShrunk(s: State, u: State, t: State, gone: set<Id>)
    requires Shrunk(u, t, gone) && u.frames.Keys == s.frames.Keys && u.ready == s.ready && u.places == s.places
    requires u.dropped == s.dropped && u.cap == s.cap
    ensures Shrunk(s, t, gone)
  {
    assert forall p :: PlaceOf(u, p) == PlaceOf(s, p);
  }

  /** A finished task is awaited without suspending. Any other runs in place of the coroutine that
      awaits it, which is suspended with the task's continuation as its only waker. */
  lemma AwaitRuns(s: State, c: Id)
    requires Inv(s) && Enabled(s, Await(c)) && Orderly(s, Await(c))
    ensures var t, r := Apply(s, Await(c)), Top(s);
      && (s.frames[c].phase.Done? ==> t == s)
      && (!s.frames[c].phase.Done? ==>
            && Shrunk(s, t, Ends(s.frames, c)) && OnlyIn(s, t, {r, c})
            && t.stack != [] && Top(t) == c && t.stack == SetTop(s, c).stack
            && c in t.frames && t.frames[c].phase.Running? && t.frames[c].comb.NoComb?
            && r in t.frames && t.frames[r].phase.Suspended? && SoleWaker(t, Continuation(c), r))
  {
    if !s.frames[c].phase.Done? {
      var r, u, t := Top(s), HandOver(s, c), Apply(s, Await(c));
      Unlinked(s, c);
      OwnedNotRunning(s, c);
      TopRuns(s);
      AwaitKeeps(s, c);
      AwaitShape(s, c);
      AwaitIs(s, u, c);
      AwaitShrinks(s, u, c);
      HandedOver(s, u, t, c);
      TheWaker(t, Continuation(c), r);
    }
  }

  lemma AwaitIs(s: State, u: State, c: Id)
    requires Inv(s) && Enabled(s, Await(c)) && Awaited(s, u, Top(s), c) && u == HandOver(s, c)
    ensures Apply(s, Await(c)) == EndCombinator(u, c)
    ensures u.dropped == s.dropped && u.cap == s.cap && u.stack == SetTop(s, c).stack
  {
    if s.frames[c].phase.NeverRun? {
      AwaitedInv(s, u, c);
      AwaitedEnds(s, u, c);
    }
  }

  lemma AwaitShrinks(s: State, u: State, c: Id)
    requires Inv(s) && s.stack != [] && Awaited(s, u, Top(s), c) && u.stack == SetTop(s, c).stack
    requires u.dropped == s.dropped && u.cap == s.cap
    ensures var t := EndCombinator(u, c);
      && Shrunk(s, t, Ends(s.frames, c)) && OnlyIn(u, t, {c}) && t.stack == u.stack
      && c in t.frames && t.frames[c] == u.frames[c].(comb := NoComb)
  {
    AwaitReady(s, u, c);
    EndShrinks(u, c);
    SameShrunk(s, u, EndCombinator(u, c), Ends(s.frames, c));
  }

  lemma AwaitReady(s: State, u: State, c: Id)
    requires Inv(s) && s.stack != [] && Awaited(s, u, Top(s), c) && u.stack == SetTop(s, c).stack
    ensures InvBut(u, Some(c)) && Top(u) == c && Ends(u.frames, c) == Ends(s.frames, c)
    ensures u.frames[c].comb.NoComb? || Siblings(u.frames, c, u.frames[c].comb.kids)
  {
    AwaitedInv(s, u, c);
    if !s.frames[c].comb.NoComb? {
      AwaitedSiblings(s, u, c);
      SubAllSame(s.frames, u.frames, s.frames[c].comb.kids);
    }
  }

  lemma HandedOver(s: State, u: State, t: State, c: Id)
    requires Inv(s) && s.stack != [] && Awaited(s, u, Top(s), c) && Shrunk(s, t, Ends(s.frames, c))
    requires OnlyIn(u, t, {c}) && c in t.frames && t.frames[c] == u.frames[c].(comb := NoComb)
    ensures var r := Top(s);
      && OnlyIn(s, t, {r, c}) && t.frames[c].phase.Running? && t.frames[c].comb.NoComb?
      && r in t.frames && t.frames[r].phase.Suspended? && Holds(t, Continuation(c), r)
  {
    YoungerGone(s, c, Top(s));
  }

  /** The children of a combinator are younger than its caller and whoever owns that. */
  lemma YoungerGone(s: State, c: Id, r: Id)
    requires Inv(s) && c in s.frames && s.frames[c].owner == Some(r)
    ensures r !in Ends(s.frames, c)
  {
    if !s.frames[c].comb.NoComb? {
      assert CombOk(s.frames, c);
      KidsAreSiblings(s, c);
      SubAllCut(s, c, s.frames[c].comb.kids);
    }
  }

  /** The end of `r` is what the caller suspended in its combinator waits for: of two children the
      first to finish, of all children the last. */
  ghost predicate CallerDue(f: Frames, r: Id)
    requires r in f
  {
    && f[r].link.Notify? && f[r].link.to in f && !f[f[r].link.to].comb.NoComb?
    && f[f[r].link.to].phase == Suspended(OnCombinator)
    && (f[f[r].link.to].comb.All? ==>
          forall k :: k in f[f[r].link.to].comb.kids && k != r ==> k in f && f[k].phase.Done?)
  }

  lemma DueExactly(f: Frames, p: Id, r: Id)
    requires p in f && r in f && CombOk(f, p) && !f[p].comb.NoComb? && r in f[p].comb.kids && f[r].link == Notify(p)
    requires f[r].phase.Running? && (f[p].comb.All? ==> f[p].comb.remaining > 0)
    ensures Notified(f[p].comb, r).1 <==> CallerDue(f, r)
  {
    if f[p].comb.All? {
      OneUnfinished(f, f[p].comb.kids, r);
      UnfinishedPositive(f, f[p].comb.kids, r);
    }
  }

  /** The coroutine that a step posts, if there is room for it. */
  ghost function Due(s: State, step: Step): Option<Id>
    requires Enabled(s, step)
  {
    match step
    case Yield => Some(Top(s))
    case Wake(p) => Some(PlaceOf(s, p)[0])
    case Finish => if CallerDue(s.frames, Top(s)) then Some(s.frames[Top(s)].link.to) else None
    case _ => None
  }

  /** The ready ring is `base` without the frames that are gone, in the same order, and `due` joins the
      end or is refused and counted. */
  ghost predicate Ordered(s: State, t: State, base: seq<Id>, due: Option<Id>) {
    var kept := Without(base, s.frames.Keys - t.frames.Keys);
    && t.cap == s.cap
    && t.ready == (if due.Some? && |kept| < s.cap then kept + [due.value] else kept)
    && t.dropped == if due.Some? && |kept| >= s.cap then s.dropped + 1 else s.dropped
  }

  lemma NothingGone(q: seq<Id>, gone: set<Id>)
    requires gone == {}
    ensures Without(q, gone) == q
  {
    WithoutAbsent(q, gone);
  }

  lemma QuietOrder(s: State, t: State)
    requires s.frames.Keys <= t.frames.Keys && t.ready == s.ready && t.dropped == s.dropped && t.cap == s.cap
    ensures Ordered(s, t, s.ready, None)
  {
    NothingGone(s.ready, s.frames.Keys - t.frames.Keys);
  }

  lemma PostOrder(s: State, u: State, h: Id)
    requires s.frames.Keys == u.frames.Keys && h in u.frames && u.dropped == s.dropped && u.cap == s.cap
    ensures Ordered(s, Post(u, h), u.ready, Some(h))
  {
    NothingGone(u.ready, s.frames.Keys - Post(u, h).frames.Keys);
  }

  lemma ShrunkOrder(s: State, t: State, gone: set<Id>)
    requires Shrunk(s, t, gone)
    ensures Ordered(s, t, s.ready, None)
    ensures forall p :: PlaceOf(t, p) == Without(PlaceOf(s, p), s.frames.Keys - t.frames.Keys)
  {
    assert s.frames.Keys - t.frames.Keys == gone;
  }

  /** The end of `r`, whose own tasks are gone: it is done; the coroutine that awaits it, if any, runs
      in its place, and otherwise control goes back to whoever resumed it; of the others only a
      combinator it is hooked to changes, whose suspended caller is posted if this is what it waits for. */
  ghost predicate HasEnded(s: State, t: State, r: Id)
    requires s.stack != [] && r in s.frames
  {
    && t.frames.Keys == s.frames.Keys && t.frames[r] == s.frames[r].(phase := Done) && t.places == s.places
    && Ordered(s, t, s.ready, if CallerDue(s.frames, r) then Some(s.frames[r].link.to) else None)
    && (match s.frames[r].link
        case NoLink => OnlyIn(s, t, {r}) && t.stack == s.stack[..|s.stack| - 1]
        case Continue(k) =>
          && OnlyIn(s, t, {r, k}) && t.stack == SetTop(s, k).stack
          && k in s.frames && t.frames[k] == s.frames[k].(phase := Running)
        case Notify(p) =>
          && OnlyIn(s, t, {r, p}) && t.stack == s.stack[..|s.stack| - 1]
          && p in s.frames && Counted(s.frames[p], t.frames[p], r)
          && (CallerDue(s.frames, r) ==> t.frames[p].phase.Suspended?)
          && (!CallerDue(s.frames, r) ==> t.frames[p].phase == s.frames[p].phase))
  }

  /** Nothing of the combinator changes but its count, or its winner, which is the first child to end. */
  ghost predicate Counted(f: Frame, g: Frame, r: Id) {
    && g.owner == f.owner && g.link == f.link && g.detached == f.detached
    && (f.comb.All? ==>
          && g.comb.All? && g.comb.kids == f.comb.kids && g.comb.started == f.comb.started
          && g.comb.remaining + 1 == f.comb.remaining)
    && (f.comb.Any? ==>
          && g.comb.Any? && g.comb.kids == f.comb.kids && g.comb.started == f.comb.started
          && g.comb.winner == if f.comb.winner.Some? then f.comb.winner else Some(r))
  }

  lemma NotifyEnds(s: State, r: Id, p: Id)
    requires Inv(s) && Executing(s) && r == Top(s) && s.frames[r].link == Notify(p)
    ensures HasEnded(s, Pop(NotifyParent(SetPhase(s, r, Done), p, r)), r)
  {
    var v := SetPhase(s, r, Done);
    TopRuns(s);
    HookedKid(s, r, p);
    NotifiedComb(s.frames, v.frames, p, r);
    NotifyIs(v, p, r);
    DueExactly(s.frames, p, r);
    var (c, woken) := Notified(s.frames[p].comb, r);
    NotifiedCounts(s.frames[p], c, woken, r);
    if woken {
      NotifyPosts(s, v, r, p, c);
    } else {
      NotifyQuiet(s, v, r, p, c);
    }
  }

  lemma NotifiedCounts(f: Frame, c: Comb, woken: bool, r: Id)
    requires !f.comb.NoComb? && (f.comb.All? ==> f.comb.remaining > 0) && (c, woken) == Notified(f.comb, r)
    ensures forall ph :: Counted(f, f.(comb := c, phase := ph), r)
  {
  }

  lemma NotifyQuiet(s: State, v: State, r: Id, p: Id, c: Comb)
    requires s.stack != [] && r in s.frames && p in s.frames && p != r && s.frames[r].link == Notify(p)
    requires v == SetPhase(s, r, Done) && !CallerDue(s.frames, r)
    requires forall ph :: Counted(s.frames[p], s.frames[p].(comb := c, phase := ph), r)
    ensures HasEnded(s, Pop(SetComb(v, p, c)), r)
  {
    var f := s.frames[p];
    assert Counted(f, f.(comb := c, phase := f.phase), r);
    assert f.(comb := c, phase := f.phase) == f.(comb := c);
    QuietOrder(s, Pop(SetComb(v, p, c)));
  }

  lemma NotifyPosts(s: State, v: State, r: Id, p: Id, c: Comb)
    requires s.stack != [] && r in s.frames && p in s.frames && p != r && s.frames[r].link == Notify(p)
    requires v == SetPhase(s, r, Done) && CallerDue(s.frames, r)
    requires forall ph :: Counted(s.frames[p], s.frames[p].(comb := c, phase := ph), r)
    ensures HasEnded(s, Pop(Post(SetPhase(SetComb(v, p, c), p, Suspended(Nowhere)), p)), r)
  {
    var t := Post(SetPhase(SetComb(v, p, c), p, Suspended(Nowhere)), p);
    NotifyPosted(s, v, r, p, c);
    assert Counted(s.frames[p], t.frames[p], r);
    assert Ordered(s, Pop(t), s.ready, Some(p));
  }

  lemma NotifyPosted(s: State, v: State, r: Id, p: Id, c: Comb)
    requires r in s.frames && p in s.frames && p != r && v == SetPhase(s, r, Done)
    ensures var t := Post(SetPhase(SetComb(v, p, c), p, Suspended(Nowhere)), p);
      && t.frames.Keys == s.frames.Keys && t.frames[p].phase.Suspended? && OnlyIn(s, t, {r, p})
      && t.frames[p] == s.frames[p].(comb := c, phase := t.frames[p].phase)
      && t.frames[r] == s.frames[r].(phase := Done)
      && t.places == s.places && t.stack == s.stack && Ordered(s, t, s.ready, Some(p))
  {
    PostOrder(s, SetPhase(SetComb(v, p, c), p, Suspended(Nowhere)), p);
  }

  lemma LeafEnds(s: State)
    requires Inv(s) && Executing(s) && Kids(s.frames, Top(s)) == {} && !s.frames[Top(s)].detached
    ensures HasEnded(s, AfterFinish(SetPhase(s, Top(s), Done), Top(s), s.frames[Top(s)].link), Top(s))
  {
    var r := Top(s);
    TopRuns(s);
    match s.frames[r].link
    case NoLink => QuietOrder(s, Pop(SetPhase(s, r, Done)));
    case Continue(k) =>
      AwaiterOf(s, r);
      QuietOrder(s, Transfer(SetPhase(s, r, Done), k));
    case Notify(p) => NotifyEnds(s, r, p);
  }

  /** A coroutine that is not detached and ends: what it owns is gone, from every list as well, and then
      it ends as `HasEnded` says. */
  lemma FinishExact(s: State)
    requires Inv(s) && Enabled(s, Finish) && !s.frames[Top(s)].detached
    ensures var u := DestroyKids(s, Top(s));
      && Shrunk(s, u, Sub(s.frames, Top(s)) - {Top(s)}) && OnlyIn(s, u, {}) && u.stack == s.stack
      && Top(s) in u.frames && HasEnded(u, Apply(s, Finish), Top(s))
      && (CallerDue(u.frames, Top(s)) <==> CallerDue(s.frames, Top(s)))
  {
    var r := Top(s);
    TopRuns(s);
    LocalsGone(s);
    LocalsErased(s, r);
    ErasedShrinks(s, Sub(s.frames, r) - {r});
    var u := DestroyKids(s, r);
    LeafEnds(u);
    DueKept(s, u, r);
  }

  lemma DueKept(s: State, u: State, r: Id)
    requires Inv(s) && Inv(u) && r in u.frames && !u.frames[r].phase.Done? && OnlyIn(s, u, {})
    ensures CallerDue(u.frames, r) <==> CallerDue(s.frames, r)
  {
    if s.frames[r].link.Notify? {
      var p := s.frames[r].link.to;
      HookedKid(u, r, p);
      assert u.frames[p] == s.frames[p];
    }
  }

  // ---------------------------------------------------------------------------
  // Creating, starting, suspending and waking
  // ---------------------------------------------------------------------------

  /** A new task has a frame of its own, has not run, and belongs to the coroutine that created it. */
  lemma CreateExact(s: State)
    requires Inv(s) && Enabled(s, Create)
    ensures var t, x := Apply(s, Create), s.next;
      && x !in s.frames && t.frames.Keys == s.frames.Keys + {x} && OnlyIn(s, t, {x}) && t.stack == s.stack
      && t.frames[x].phase.NeverRun? && SameWakers(s, t)
      && (if s.stack == [] then Root(t, x) else OwnedByTop(t, x))
  {
    var t, x := Apply(s, Create), s.next;
    assert x !in s.frames;
    forall w, h
      ensures Holds(t, w, h) <==> Holds(s, w, h)
    {
      match w
      case InRing(_) =>
      case InPlace(_, _) =>
      case Continuation(_) =>
      case CallerSlot(_) =>
    }
  }

  /** A started task runs on top of whoever started it, and `spawn` takes it from its owner. */
  lemma StartExact(s: State, x: Id, release: bool)
    requires Inv(s) && Enabled(s, Start(x, release))
    ensures var t := Apply(s, Start(x, release));
      && t.frames.Keys == s.frames.Keys && OnlyIn(s, t, {x}) && t.stack == s.stack + [Act(x, x)]
      && t.frames[x].phase.Running? && SameWakers(s, t) && (forall w :: !Holds(t, w, x))
      && (if release then Root(t, x) else t.frames[x].owner == s.frames[x].owner)
  {
    var t := Apply(s, Start(x, release));
    NotLinked(s, x);
    StartKeeps(s, x, release);
    NoWaker(t, x);
    StartedWakers(s, t, x);
  }

  lemma StartedWakers(s: State, t: State, x: Id)
    requires x in s.frames && x in t.frames && t.frames == s.frames[x := t.frames[x]]
    requires t.ready == s.ready && t.places == s.places
    requires s.frames[x].link.NoLink? && s.frames[x].comb.NoComb?
    requires t.frames[x].link.NoLink? && t.frames[x].comb.NoComb?
    ensures SameWakers(s, t)
  {
    forall w, h
      ensures Holds(t, w, h) <==> Holds(s, w, h)
    {
      match w
      case InRing(_) =>
      case InPlace(_, _) =>
      case Continuation(_) =>
      case CallerSlot(_) =>
    }
  }

  /** The running coroutine leaves the stack suspended, and its only waker is its place in the list:
      first or last, as the awaiter chooses. */
  lemma SuspendExact(s: State, p: Place, front: bool)
    requires Inv(s) && Enabled(s, Suspend(p, front))
    ensures var t, r := Apply(s, Suspend(p, front)), Top(s);
      && t.frames.Keys == s.frames.Keys && OnlyIn(s, t, {r}) && t.stack == s.stack[..|s.stack| - 1]
      && t.frames[r].phase.Suspended? && SoleWaker(t, InPlace(p, if front then 0 else |PlaceOf(s, p)|), r)
  {
    var t, r := Apply(s, Suspend(p, front)), Top(s);
    TopRuns(s);
    SuspendKeeps(s, p, front);
    assert Holds(t, InPlace(p, if front then 0 else |PlaceOf(s, p)|), r);
    TheWaker(t, InPlace(p, if front then 0 else |PlaceOf(s, p)|), r);
  }

  /** The first of a list is woken: it alone changes, and afterwards its only waker, if the ring had
      room, is the last place in the ready ring. */
  lemma WakeExact(s: State, p: Place)
    requires Inv(s) && Enabled(s, Wake(p))
    ensures var t, h := Apply(s, Wake(p)), PlaceOf(s, p)[0];
      && t.frames.Keys == s.frames.Keys && OnlyIn(s, t, {h}) && t.stack == s.stack && t.frames[h].phase.Suspended?
      && (|s.ready| < s.cap ==> SoleWaker(t, InRing(|s.ready|), h))
      && (|s.ready| >= s.cap ==> forall w :: !Holds(t, w, h))
  {
    var t, h := Apply(s, Wake(p)), PlaceOf(s, p)[0];
    TakeHeadPlaces(s, p);
    WakeKeeps(s, p);
    if |s.ready| < s.cap {
      TheWaker(t, InRing(|s.ready|), h);
    } else {
      SomeWaker(t, h);
    }
  }

  /** A coroutine that yields goes to the end of the ready ring. */
  lemma YieldExact(s: State)
    requires Inv(s) && Enabled(s, Yield)
    ensures var t, r := Apply(s, Yield), Top(s);
      && t.frames.Keys == s.frames.Keys && OnlyIn(s, t, {r}) && t.stack == s.stack[..|s.stack| - 1]
      && t.frames[r].phase.Suspended?
      && (|s.ready| < s.cap ==> SoleWaker(t, InRing(|s.ready|), r))
      && (|s.ready| >= s.cap ==> forall w :: !Holds(t, w, r))
  {
    var t, r := Apply(s, Yield), Top(s);
    TopRuns(s);
    YieldKeeps(s);
    if |s.ready| < s.cap {
      TheWaker(t, InRing(|s.ready|), r);
    } else {
      SomeWaker(t, r);
    }
  }

  /** The handle taken from the front of the ready ring is resumed on the empty stack. If it waited in a
      combinator, what it waited for has happened and the children are gone; nobody else changes. */
  lemma DispatchExact(s: State)
    requires Inv(s) && Enabled(s, Dispatch)
    ensures var t, h := Apply(s, Dispatch), s.ready[0];
      && Shrunk(s.(ready := s.ready[1..]), t, if h in s.frames then Ends(s.frames, h) else {}) && OnlyIn(s, t, {h})
      && t.stack == [Act(h, h)] && Over(s, t, h) && t.frames[h] == s.frames[h].(phase := Running, comb := NoComb)
  {
    DispatchKeeps(s);
    DispatchSettled(s);
    DispatchShrinks(s);
    NoneHeld(Apply(s, Dispatch), Ends(s.frames, s.ready[0]));
  }

  lemma DispatchShrinks(s: State)
    requires Inv(s) && Enabled(s, Dispatch)
    ensures var t, h := Apply(s, Dispatch), s.ready[0];
      && h in s.frames && Shrunk(s.(ready := s.ready[1..]), t, Ends(s.frames, h)) && OnlyIn(s, t, {h})
      && t.stack == [Act(h, h)] && h in t.frames && t.frames[h] == s.frames[h].(phase := Running, comb := NoComb)
  {
    var h := s.ready[0];
    DispatchShape(s);
    var w := SetPhase(s.(ready := s.ready[1..]), h, Running).(stack := [Act(h, h)]);
    DispatchReady(s, w, h);
    EndShrinks(w, h);
    SameShrunk(s.(ready := s.ready[1..]), w, EndCombinator(w, h), Ends(s.frames, h));
  }

  lemma DispatchSettled(s: State)
    requires Inv(s) && Enabled(s, Dispatch)
    ensures s.ready[0] in s.frames && Settled(s.frames, s.ready[0])
  {
    var h := s.ready[0];
    DispatchShape(s);
    assert CombOk(s.frames, h);
    if s.frames[h].comb.All? {
      NoneUnfinished(s.frames, s.frames[h].comb.kids);
    }
  }

  lemma DispatchReady(s: State, w: State, h: Id)
    requires Inv(s) && Woken(s, w, h)
    ensures InvBut(w, Some(h)) && Top(w) == h && Ends(w.frames, h) == Ends(s.frames, h)
    ensures w.frames[h].comb.NoComb? || Siblings(w.frames, h, w.frames[h].comb.kids)
  {
    WokenInv(s, w, h);
    if !s.frames[h].comb.NoComb? {
      WokenKids(s, w, h);
      SubAllSame(s.frames, w.frames, s.frames[h].comb.kids);
    }
  }
}
