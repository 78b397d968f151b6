/** The order of the ready ring and of the lists over every step, and what follows for those who wait. */
module OwnershipOrder {
  import opened Prelude
  import opened Ownership
  import opened OwnershipProofs
  import opened OwnershipSteps
  import opened OwnershipEnds
  import opened OwnershipSafety
  import opened OwnershipEffects

  lemma FinishOrder(s: State)
    requires Inv(s) && Enabled(s, Finish)
    ensures Ordered(s, Apply(s, Finish), s.ready, Due(s, Finish))
    ensures forall p ::
      PlaceOf(Apply(s, Finish), p) == Without(PlaceOf(s, p), s.frames.Keys - Apply(s, Finish).frames.Keys)
  {
    var r := Top(s);
    if s.frames[r].detached {
      DetachedFinish(s);
      ShrunkOrder(s, Apply(s, Finish), Sub(s.frames, r));
    } else {
      FinishExact(s);
      EndedOrder(s, DestroyKids(s, r), Apply(s, Finish), r);
    }
  }

  lemma EndedOrder(s: State, u: State, t: State, r: Id)
    requires s.stack != [] && u.stack == s.stack && r in u.frames && r in s.frames && HasEnded(u, t, r)
    requires Shrunk(s, u, Sub(s.frames, r) - {r}) && OnlyIn(s, u, {})
    requires CallerDue(u.frames, r) <==> CallerDue(s.frames, r)
    ensures Ordered(s, t, s.ready, if CallerDue(s.frames, r) then Some(s.frames[r].link.to) else None)
    ensures forall p :: PlaceOf(t, p) == Without(PlaceOf(s, p), s.frames.Keys - t.frames.Keys)
  {
    ShrunkOrder(s, u, Sub(s.frames, r) - {r});
    NothingGone(u.ready, u.frames.Keys - t.frames.Keys);
    assert forall p :: PlaceOf(t, p) == PlaceOf(u, p);
  }

  lemma PostsOrder(s: State, step: Step)
    requires Inv(s) && Enabled(s, step) && (step.Yield? || step.Wake?)
    ensures Ordered(s, Apply(s, step), s.ready, Due(s, step))
  {
    if step.Yield? {
      TopRuns(s);
      YieldIs(s);
      PostOrder(s, LeaveTop(s, Nowhere), Top(s));
    } else {
      WakeIs(s, step.p);
      TakeHeadPlaces(s, step.p);
      PostOrder(s, TakeHead(s, step.p), PlaceOf(s, step.p)[0]);
    }
  }

  predicate Quiets(step: Step) {
    step.Create? || step.Start? || step.Suspend? || step.Clear? || step.Combine? || step.StartKid?
  }

  /** Neither the ready ring nor any frame is taken from. */
  ghost predicate Calm(s: State, t: State) {
    s.frames.Keys <= t.frames.Keys && t.ready == s.ready && t.dropped == s.dropped && t.cap == s.cap
  }

  lemma PlainCalm(s: State, step: Step)
    requires Enabled(s, step) && (step.Create? || step.Start? || step.Suspend? || step.Clear?)
    ensures Calm(s, Apply(s, step))
  {
  }

  lemma CombineCalm(s: State, step: Step)
    requires Inv(s) && Enabled(s, step) && (step.Combine? || step.StartKid?)
    ensures Calm(s, Apply(s, step))
  {
    if step.StartKid? {
      StartKidShape(s);
    } else {
      CombineShape(s, step.kids, step.any);
    }
  }

  lemma QuietSteps(s: State, step: Step)
    requires Inv(s) && Enabled(s, step) && Quiets(step)
    ensures Ordered(s, Apply(s, step), s.ready, None) && Due(s, step) == None
    ensures s.frames.Keys <= Apply(s, step).frames.Keys
  {
    if step.Combine? || step.StartKid? {
      CombineCalm(s, step);
    } else {
      PlainCalm(s, step);
    }
    QuietOrder(s, Apply(s, step));
  }

  /** A list or slot before the frames that the step frees leave it. */
  function PlaceBefore(s: State, step: Step, p: Place): seq<Id>
    requires Enabled(s, step)
  {
    var q := PlaceOf(s, p);
    match step
    case Suspend(p', front) => if p' != p then q else if front then [Top(s)] + q else q + [Top(s)]
    case Wake(p') => if p' == p then q[1..] else q
    case Clear(p') => if p' == p then [] else q
    case _ => q
  }

  ghost predicate Listed(s: State, step: Step, t: State)
    requires Enabled(s, step)
  {
    forall p :: PlaceOf(t, p) == Without(PlaceBefore(s, step, p), s.frames.Keys - t.frames.Keys)
  }

  lemma UnmovedLists(s: State, step: Step, t: State)
    requires Enabled(s, step) && s.frames.Keys <= t.frames.Keys && forall p :: PlaceOf(t, p) == PlaceBefore(s, step, p)
    ensures Listed(s, step, t)
  {
    forall p
      ensures PlaceOf(t, p) == Without(PlaceBefore(s, step, p), s.frames.Keys - t.frames.Keys)
    {
      NothingGone(PlaceBefore(s, step, p), s.frames.Keys - t.frames.Keys);
    }
  }

  lemma ShrunkLists(s: State, step: Step, t: State, gone: set<Id>)
    requires Enabled(s, step) && Shrunk(s, t, gone) && !step.Suspend? && !step.Wake? && !step.Clear?
    ensures Listed(s, step, t)
  {
    assert s.frames.Keys - t.frames.Keys == gone;
  }

  lemma PlainLists(s: State, step: Step, p: Place)
    requires Enabled(s, step)
    requires step.Create? || step.Start? || step.Suspend? || step.Clear? || step.Wake? || step.Yield?
    ensures PlaceOf(Apply(s, step), p) == PlaceBefore(s, step, p)
  {
  }

  lemma CombineLists(s: State, step: Step, p: Place)
    requires Inv(s) && Enabled(s, step) && (step.Combine? || step.StartKid?)
    ensures PlaceOf(Apply(s, step), p) == PlaceBefore(s, step, p)
  {
    if step.StartKid? {
      StartKidShape(s);
    } else {
      CombineShape(s, step.kids, step.any);
    }
  }

  lemma WakesKeepFrames(s: State, step: Step)
    requires Inv(s) && Enabled(s, step) && (step.Yield? || step.Wake?)
    ensures s.frames.Keys <= Apply(s, step).frames.Keys
  {
    if step.Yield? {
      YieldExact(s);
    } else {
      WakeExact(s, step.p);
    }
  }

  lemma CalmLists(s: State, step: Step)
    requires Inv(s) && Enabled(s, step) && (Quiets(step) || step.Yield? || step.Wake?)
    ensures Listed(s, step, Apply(s, step))
  {
    var t := Apply(s, step);
    if Quiets(step) {
      QuietSteps(s, step);
    } else {
      WakesKeepFrames(s, step);
    }
    forall p
      ensures PlaceOf(t, p) == PlaceBefore(s, step, p)
    {
      if step.Combine? || step.StartKid? {
        CombineLists(s, step, p);
      } else {
        PlainLists(s, step, p);
      }
    }
    UnmovedLists(s, step, t);
  }

  lemma CancelOrder(s: State, x: Id)
    requires Inv(s) && Enabled(s, Cancel(x))
    ensures var t := Apply(s, Cancel(x)); Ordered(s, t, s.ready, None) && Listed(s, Cancel(x), t)
  {
    CancelKeeps(s, x);
    ErasedShrinks(s, Sub(s.frames, x));
    ShrunkOrder(s, Apply(s, Cancel(x)), Sub(s.frames, x));
    ShrunkLists(s, Cancel(x), Apply(s, Cancel(x)), Sub(s.frames, x));
  }

  /** One unlisted frame is gone, or none. */
  lemma UnlistedOrder(s: State, step: Step, t: State, x: Id)
    requires Enabled(s, step) && step.Detach? && s.frames.Keys - t.frames.Keys <= {x}
    requires t.ready == s.ready && t.places == s.places && t.dropped == s.dropped && t.cap == s.cap
    requires x !in t.frames ==> x !in s.ready && forall p :: x !in PlaceOf(s, p)
    ensures Ordered(s, t, s.ready, None) && Listed(s, step, t)
  {
    var gone := s.frames.Keys - t.frames.Keys;
    assert gone == {} || (gone == {x} && x !in t.frames);
    WithoutAbsent(s.ready, gone);
    forall p
      ensures PlaceOf(t, p) == Without(PlaceOf(s, p), gone)
    {
      WithoutAbsent(PlaceOf(s, p), gone);
    }
  }

  lemma DetachOrder(s: State, x: Id)
    requires Inv(s) && Enabled(s, Detach(x))
    ensures var t := Apply(s, Detach(x)); Ordered(s, t, s.ready, None) && Listed(s, Detach(x), t)
  {
    DetachExact(s, x);
    if !s.frames[x].phase.Suspended? {
      Unlisted(s, x);
      GoneAlone(s, x);
    }
    UnlistedOrder(s, Detach(x), Apply(s, Detach(x)), x);
  }

  lemma AwaitOrder(s: State, c: Id)
    requires Inv(s) && Enabled(s, Await(c)) && Orderly(s, Await(c))
    ensures var t := Apply(s, Await(c)); Ordered(s, t, s.ready, None) && Listed(s, Await(c), t)
  {
    AwaitRuns(s, c);
    var t := Apply(s, Await(c));
    if s.frames[c].phase.Done? {
      QuietOrder(s, t);
      UnmovedLists(s, Await(c), t);
    } else {
      ShrunkOrder(s, t, Ends(s.frames, c));
      ShrunkLists(s, Await(c), t, Ends(s.frames, c));
    }
  }

  lemma DecideOrder(s: State)
    requires Inv(s) && Enabled(s, Decide)
    ensures var t := Apply(s, Decide); Ordered(s, t, s.ready, None) && Listed(s, Decide, t)
  {
    var p, t := Top(s), Apply(s, Decide);
    TopRuns(s);
    assert CombOk(s.frames, p);
    DecideParks(s);
    if t == EndCombinator(s, p) {
      KidsAreSiblings(s, p);
      EndShrinks(s, p);
      ShrunkOrder(s, t, Ends(s.frames, p));
      ShrunkLists(s, Decide, t, Ends(s.frames, p));
    } else {
      QuietOrder(s, t);
      UnmovedLists(s, Decide, t);
    }
  }

  lemma DispatchOrder(s: State)
    requires Inv(s) && Enabled(s, Dispatch)
    ensures var t := Apply(s, Dispatch); Ordered(s, t, s.ready[1..], None) && Listed(s, Dispatch, t)
  {
    var t, u := Apply(s, Dispatch), s.(ready := s.ready[1..]);
    DispatchExact(s);
    ShrunkOrder(u, t, Ends(s.frames, s.ready[0]));
    assert forall p :: PlaceOf(u, p) == PlaceOf(s, p);
  }

  function RingBefore(s: State, step: Step): seq<Id>
    requires Enabled(s, step)
  {
    if step.Dispatch? then s.ready[1..] else s.ready
  }

  lemma CalmOrder(s: State, step: Step)
    requires Inv(s) && Enabled(s, step) && (Quiets(step) || step.Yield? || step.Wake?)
    ensures Ordered(s, Apply(s, step), s.ready, Due(s, step)) && Listed(s, step, Apply(s, step))
  {
    CalmLists(s, step);
    if Quiets(step) {
      QuietSteps(s, step);
    } else {
      PostsOrder(s, step);
    }
  }

  lemma EndOrder(s: State, step: Step)
    requires Inv(s) && Enabled(s, step) && Orderly(s, step)
    requires step.Await? || step.Decide? || step.Cancel? || step.Detach?
    ensures Ordered(s, Apply(s, step), s.ready, Due(s, step)) && Listed(s, step, Apply(s, step))
  {
    match step
    case Cancel(x) => CancelOrder(s, x);
    case Detach(x) => DetachOrder(s, x);
    case Await(c) => AwaitOrder(s, c);
    case Decide => DecideOrder(s);
  }

  /** No step changes the order of the ready ring, of a wait list or of a slot: freed frames leave them,
      a dispatch takes the first of the ring and a wake the first of a list, a suspension joins a list
      at the end it chose, and the one coroutine the step posts joins the end of the ring, if there is
      room left, and is refused and counted otherwise. */
  lemma StepOrder(s: State, step: Step)
    requires Inv(s) && Enabled(s, step) && Orderly(s, step)
    ensures Ordered(s, Apply(s, step), RingBefore(s, step), Due(s, step)) && Listed(s, step, Apply(s, step))
  {
    if step.Dispatch? {
      DispatchOrder(s);
    } else if step.Finish? {
      FinishOrder(s);
    } else if Quiets(step) || step.Yield? || step.Wake? {
      CalmOrder(s, step);
    } else {
      EndOrder(s, step);
    }
  }

  // ---------------------------------------------------------------------------
  // Nobody starves
  // ---------------------------------------------------------------------------

  lemma {:induction false} MovesUp(q: seq<Id>, gone: set<Id>, i: nat)
    requires i < |q| && q[i] !in gone
    ensures exists j: nat :: j <= i && j < |Without(q, gone)| && Without(q, gone)[j] == q[i]
  {
    var rest := Without(q[1..], gone);
    if i == 0 {
      assert Without(q, gone)[0] == q[0];
    } else {
      MovesUp(q[1..], gone, i - 1);
      var j: nat :| j <= i - 1 && j < |rest| && rest[j] == q[1..][i - 1];
      if q[0] in gone {
        assert Without(q, gone)[j] == q[i];
      } else {
        assert Without(q, gone)[j + 1] == q[i];
      }
    }
  }

  /** The coroutine `h` is among the first `n` of the ready ring. */
  predicate Among(s: State, h: Id, n: nat) {
    exists i: nat :: i < n && i < |s.ready| && s.ready[i] == h
  }

  /** One step brings a ready coroutine no further back, and a dispatch, unless it is its own, brings
      it forward, as long as it is not freed. */
  lemma StepAdvances(s: State, step: Step, h: Id, n: nat)
    requires Inv(s) && Enabled(s, step) && Orderly(s, step) && Among(s, h, n)
    ensures var t := Apply(s, step);
      && (!step.Dispatch? && h in t.frames ==> Among(t, h, n))
      && (step.Dispatch? && s.ready[0] != h && h in t.frames ==> n > 1 && Among(t, h, n - 1))
  {
    var t, base := Apply(s, step), RingBefore(s, step);
    var gone := s.frames.Keys - t.frames.Keys;
    StepOrder(s, step);
    var i: nat :| i < n && i < |s.ready| && s.ready[i] == h;
    if h in t.frames && (!step.Dispatch? || s.ready[0] != h) {
      var k := if step.Dispatch? then i - 1 else i;
      assert base[k] == h;
      MovesUp(base, gone, k);
      var j: nat :| j <= k && j < |Without(base, gone)| && Without(base, gone)[j] == h;
      assert t.ready[j] == h;
    }
  }

  /** In the run `h` is resumed from the ready ring, or its frame is freed first. */
  predicate Served(s: State, steps: seq<Step>, h: Id)
    decreases |steps|
  {
    && steps != [] && Enabled(s, steps[0])
    && ((steps[0].Dispatch? && s.ready[0] == h)
        || h !in Apply(s, steps[0]).frames || Served(Apply(s, steps[0]), steps[1..], h))
  }

  function Dispatches(steps: seq<Step>): nat {
    if steps == [] then 0 else (if steps[0].Dispatch? then 1 else 0) + Dispatches(steps[1..])
  }

  /** Whatever the others do, a posted coroutine is resumed, or freed before, within as many dispatches
      as its place in the ready ring says. */
  lemma {:induction false} NobodyStarves(s: State, steps: seq<Step>, t: State, h: Id, n: nat)
    requires Inv(s) && Runs(s, steps, t) && Among(s, h, n) && Dispatches(steps) >= n
    ensures Served(s, steps, h)
    decreases |steps|
  {
    var i: nat :| i < n && i < |s.ready| && s.ready[i] == h;
    if !(steps[0].Dispatch? && s.ready[0] == h) && h in Apply(s, steps[0]).frames {
      StepAdvances(s, steps[0], h, n);
      StepKeeps(s, steps[0]);
      NobodyStarves(Apply(s, steps[0]), steps[1..], t, h, if steps[0].Dispatch? then n - 1 else n);
    }
  }
}
