/** What the invariant means for users of the coroutine runtime, over every run. */
module OwnershipSafety {
  import opened Prelude
  import opened Ownership
  import opened OwnershipProofs
  import opened OwnershipSteps
  import opened OwnershipEnds

  /** The places a coroutine handle can be stored in. */
  datatype Holder =
    | InRing(i: nat)
    | InPlace(p: Place, i: nat)
    | Continuation(c: Id)  // `continuation_` of the unfinished task c
    | CallerSlot(f: Id)    // `caller_` of the combinator in frame f

  predicate Holds(s: State, w: Holder, h: Id) {
    match w
    case InRing(i) => i < |s.ready| && s.ready[i] == h
    case InPlace(p, i) => i < |PlaceOf(s, p)| && PlaceOf(s, p)[i] == h
    case Continuation(c) => c in s.frames && !s.frames[c].phase.Done? && s.frames[c].link == Continue(h)
    case CallerSlot(p) => p == h && p in s.frames && !s.frames[p].comb.NoComb? && s.frames[p].comb.caller
  }

  /** Every stored handle names a live coroutine that has not finished; outside a combinator's
      `await_suspend` it names a suspended one. */
  lemma StoredHandlesLive(s: State, w: Holder, h: Id)
    requires Inv(s) && Holds(s, w, h)
    ensures h in s.frames
    ensures s.frames[h].phase.Suspended? || (w == CallerSlot(h) && s.frames[h].phase.Running?)
  {
    match w
    case InRing(i) => assert h in s.ready;
    case InPlace(p, i) => assert h in s.places[p];
    case Continuation(c) =>
    case CallerSlot(p) => assert CombOk(s.frames, p);
  }

  /** Where a held handle is stored is where its coroutine waits. */
  lemma HolderMatches(s: State, w: Holder, h: Id)
    requires Inv(s) && Holds(s, w, h)
    ensures h in s.frames
    ensures s.frames[h].phase.Suspended? ==>
      match w
      case InRing(_) => s.frames[h].phase.at == InReady
      case InPlace(p, _) => s.frames[h].phase.at == At(p)
      case Continuation(c) => s.frames[h].phase.at == OnChild(c)
      case CallerSlot(_) => s.frames[h].phase.at == OnCombinator
  {
    StoredHandlesLive(s, w, h);
    match w
    case InRing(i) => assert h in s.ready;
    case InPlace(p, i) => assert h in s.places[p];
    case Continuation(c) =>
    case CallerSlot(p) => assert CombOk(s.frames, p);
  }

  /** A coroutine never has two wakers. */
  lemma OneWaker(s: State, v: Holder, w: Holder, h: Id)
    requires Inv(s) && Holds(s, v, h) && Holds(s, w, h)
    ensures v == w
  {
    StoredHandlesLive(s, v, h);
    StoredHandlesLive(s, w, h);
    HolderMatches(s, v, h);
    HolderMatches(s, w, h);
  }

  /** Every suspended coroutine has a waker, but for those the invariant expects to have none. */
  lemma SomeWaker(s: State, h: Id)
    requires Inv(s) && h in s.frames && s.frames[h].phase.Suspended?
    ensures (exists w :: Holds(s, w, h)) <==> s.frames[h].phase != Suspended(Nowhere)
  {
    if w :| Holds(s, w, h) {
      HolderMatches(s, w, h);
    }
    match s.frames[h].phase.at
    case At(p) =>
      var i :| 0 <= i < |PlaceOf(s, p)| && PlaceOf(s, p)[i] == h;
      assert Holds(s, InPlace(p, i), h);
    case InReady =>
      assert h in s.ready;
      var i :| 0 <= i < |s.ready| && s.ready[i] == h;
      assert Holds(s, InRing(i), h);
    case OnChild(c) => assert Holds(s, Continuation(c), h);
    case OnCombinator =>
      assert CombOk(s.frames, h);
      assert Holds(s, CallerSlot(h), h);
    case Nowhere =>
  }

  // ---------------------------------------------------------------------------
  // Runs
  // ---------------------------------------------------------------------------

  /** A run in which no coroutine awaits a task that another waker may still resume. */
  predicate Runs(s: State, steps: seq<Step>, t: State)
    decreases |steps|
  {
    if steps == [] then t == s
    else Enabled(s, steps[0]) && Orderly(s, steps[0]) && Runs(Apply(s, steps[0]), steps[1..], t)
  }

  lemma InitInv(cap: nat)
    ensures Inv(Init(cap))
  {
  }

  lemma {:induction false} RunKeeps(s: State, steps: seq<Step>, t: State)
    requires Inv(s) && Runs(s, steps, t)
    ensures Inv(t)
    decreases |steps|
  {
    if steps != [] {
      StepKeeps(s, steps[0]);
      RunKeeps(Apply(s, steps[0]), steps[1..], t);
    }
  }

  /** No run ever resumes, notifies or destroys freed, finished or running storage, and in
      every state reached each handle has at most one holder and names a live coroutine. */
  lemma EveryRunSafe(cap: nat, steps: seq<Step>, t: State)
    requires Runs(Init(cap), steps, t)
    ensures !t.fault
    ensures forall w, h :: Holds(t, w, h) ==>
      h in t.frames && (t.frames[h].phase.Suspended? || (w == CallerSlot(h) && t.frames[h].phase.Running?))
    ensures forall v, w, h :: Holds(t, v, h) && Holds(t, w, h) ==> v == w
  {
    InitInv(cap);
    RunKeeps(Init(cap), steps, t);
    forall w, h | Holds(t, w, h)
      ensures h in t.frames && (t.frames[h].phase.Suspended? || (w == CallerSlot(h) && t.frames[h].phase.Running?))
    {
      StoredHandlesLive(t, w, h);
    }
    forall v, w, h | Holds(t, v, h) && Holds(t, w, h)
      ensures v == w
    {
      OneWaker(t, v, w, h);
    }
  }

  /** `process()` resumes exactly the suspended coroutine whose handle it popped, and no handle
      of it is left anywhere: it cannot be resumed again for the same suspension. */
  lemma DispatchOnce(s: State)
    requires Inv(s) && Enabled(s, Dispatch)
    ensures var h, t := s.ready[0], Apply(s, Dispatch);
      && h in s.frames && s.frames[h].phase.Suspended?
      && h in t.frames && t.frames[h].phase.Running? && t.frames[h].comb.NoComb? && t.stack == [Act(h, h)]
      && forall w :: !Holds(t, w, h)
  {
    var h, t := s.ready[0], Apply(s, Dispatch);
    DispatchShape(s);
    var u := SetPhase(s.(ready := s.ready[1..]), h, Running).(stack := [Act(h, h)]);
    DispatchEnds(s, u, h);
    DispatchKeeps(s);
    forall w | Holds(t, w, h)
      ensures false
    {
      StoredHandlesLive(t, w, h);
    }
  }

  /** A resumed combinator's children, loser included, are gone with everything they own. */
  lemma DispatchEnds(s: State, u: State, h: Id)
    requires Inv(s) && Woken(s, u, h)
    ensures var t := EndCombinator(u, h);
      && t.stack == u.stack && h in t.frames && t.frames[h] == u.frames[h].(comb := NoComb)
      && (!s.frames[h].comb.NoComb? ==>
            t.frames.Keys == s.frames.Keys - SubAll(s.frames, s.frames[h].comb.kids))
  {
    if u.frames[h].comb.NoComb? {
      assert u.frames[h].(comb := NoComb) == u.frames[h];
    } else {
      var kids := u.frames[h].comb.kids;
      WokenKids(s, u, h);
      WokenInv(s, u, h);
      DestroyOwned(u, kids);
      SubAllSame(s.frames, u.frames, kids);
      ErasedKeeps(u, SubAll(u.frames, kids), h);
    }
  }

  lemma WokenKids(s: State, u: State, h: Id)
    requires Inv(s) && Woken(s, u, h) && !u.frames[h].comb.NoComb?
    ensures Siblings(u.frames, h, u.frames[h].comb.kids)
  {
    assert CombOk(s.frames, h);
    KidsAreSiblings(s, h);
  }

  lemma ErasedKeeps(u: State, gone: set<Id>, h: Id)
    requires h in u.frames && h !in gone
    ensures var t := SetComb(Erase(u, gone), h, NoComb);
      && t.stack == u.stack && h in t.frames && t.frames[h] == u.frames[h].(comb := NoComb)
      && t.frames.Keys == u.frames.Keys - gone
  {
  }

  lemma {:induction false} SubAllSame(f: Frames, g: Frames, xs: seq<Id>)
    requires f.Keys == g.Keys && forall h :: h in f ==> f[h].owner == g[h].owner
    ensures SubAll(f, xs) == SubAll(g, xs)
  {
    if xs != [] {
      var x := xs[|xs| - 1];
      SubAllSame(f, g, xs[..|xs| - 1]);
      forall d
        ensures Under(f, d, x) == Under(g, d, x)
      {
        UnderSame(f, g, d, x);
      }
    }
  }

  /** What the caller of `when_any` finds when it runs again: the winner's result is that of a
      finished task, and neither child nor anything they own, the loser's requests included,
      has a frame or a handle held anywhere. */
  ghost predicate RaceOver(s: State, t: State, h: Id) {
    && h in s.frames && s.frames[h].comb.Any?
    && s.frames[h].comb.winner.Some? && s.frames[h].comb.winner.value in s.frames[h].comb.kids
    && s.frames[h].comb.winner.value in s.frames && s.frames[s.frames[h].comb.winner.value].phase.Done?
    && h in t.frames && t.frames[h].phase.Running? && t.frames[h].comb.NoComb?
    && forall d, w :: d in SubAll(s.frames, s.frames[h].comb.kids) ==> d !in t.frames && !Holds(t, w, d)
  }

  lemma NoneHeld(t: State, gone: set<Id>)
    requires Inv(t) && forall d :: d in gone ==> d !in t.frames
    ensures forall d, w :: d in gone ==> !Holds(t, w, d)
  {
    forall d, w | d in gone
      ensures !Holds(t, w, d)
    {
      if Holds(t, w, d) {
        StoredHandlesLive(t, w, d);
      }
    }
  }

  /** `when_any` with later completion: its caller is resumed from the ready ring. */
  lemma LoserGoneLater(s: State)
    requires Inv(s) && Enabled(s, Dispatch)
    requires s.ready[0] in s.frames && s.frames[s.ready[0]].comb.Any?
    ensures RaceOver(s, Apply(s, Dispatch), s.ready[0])
  {
    var h := s.ready[0];
    DispatchShape(s);
    DispatchEnds(s, SetPhase(s.(ready := s.ready[1..]), h, Running).(stack := [Act(h, h)]), h);
    DispatchKeeps(s);
    assert CombOk(s.frames, h);
    NoneHeld(Apply(s, Dispatch), SubAll(s.frames, s.frames[h].comb.kids));
  }

  /** `when_any` with completion inside `await_suspend`: its caller continues without suspending
      exactly when a child has finished. */
  lemma LoserGoneAtOnce(s: State)
    requires Inv(s) && Enabled(s, Decide) && s.frames[Top(s)].comb.Any?
    ensures var t := Apply(s, Decide);
      if s.frames[Top(s)].comb.winner.Some? then RaceOver(s, t, Top(s)) && t.stack == s.stack
      else Top(s) in t.frames && t.frames[Top(s)].phase == Suspended(OnCombinator)
  {
    var h, t := Top(s), Apply(s, Decide);
    TopRuns(s);
    assert CombOk(s.frames, h);
    DecideParks(s);
    DecideKeeps(s);
    if s.frames[h].comb.winner.Some? {
      var kids := s.frames[h].comb.kids;
      KidsAreSiblings(s, h);
      DestroyOwned(s, kids);
      SubAllCut(s, h, kids);
      ErasedKeeps(s, SubAll(s.frames, kids), h);
      NoneHeld(t, SubAll(s.frames, kids));
    }
  }

  /** Cancelling a task frees exactly its owned subtree, and afterwards no ring entry, list,
      slot, continuation or caller slot holds a handle of any frame in it. */
  lemma CancelLeavesNoTrace(s: State, x: Id)
    requires Inv(s) && Enabled(s, Cancel(x))
    ensures var t := Apply(s, Cancel(x));
      && t.frames == s.frames - Sub(s.frames, x) && x !in t.frames
      && (forall d, w :: d in Sub(s.frames, x) ==> !Holds(t, w, d))
      && (forall p, h :: h !in Sub(s.frames, x) ==> (h in PlaceOf(t, p) <==> h in PlaceOf(s, p)))
      && (forall h :: h !in Sub(s.frames, x) ==> (h in t.ready <==> h in s.ready))
  {
    var t := Apply(s, Cancel(x));
    CancelKeeps(s, x);
    assert Under(s.frames, x, x);
    forall d, w | d in Sub(s.frames, x)
      ensures !Holds(t, w, d)
    {
      if Holds(t, w, d) {
        StoredHandlesLive(t, w, d);
      }
    }
  }

  /** The destructor of an answered request whose tag was handed out again, or of a batch that
      shares its buffer's address with another wait, empties that slot as well: exactly the
      coroutine waiting there loses its waker. */
  lemma ClearTakesOneWaker(s: State, p: Place)
    requires Inv(s) && Enabled(s, Clear(p))
    ensures var t, h := Apply(s, Clear(p)), PlaceOf(s, p)[0];
      && Inv(t) && t.frames.Keys == s.frames.Keys && t.ready == s.ready && t.stack == s.stack
      && (forall d :: d in s.frames && d != h ==> t.frames[d] == s.frames[d])
      && (forall w :: !Holds(t, w, h))
      && forall d, w :: d != h ==> (Holds(t, w, d) <==> Holds(s, w, d))
  {
    var t, h := Apply(s, Clear(p)), PlaceOf(s, p)[0];
    ClearKeeps(s, p);
    ClearShape(s, p);
    SomeWaker(t, h);
    forall d, w | d != h
      ensures Holds(t, w, d) <==> Holds(s, w, d)
    {
      ClearSpares(s, t, h, p, d, w);
    }
  }

  lemma ClearShape(s: State, p: Place)
    requires PlaceInv(s) && Enabled(s, Clear(p))
    ensures var t, h := Apply(s, Clear(p)), PlaceOf(s, p)[0];
      && PlaceOf(s, p) == [h] && h in s.frames && p in s.places && t.ready == s.ready
      && t.frames == s.frames[h := s.frames[h].(phase := Suspended(Nowhere))] && t.places == s.places[p := []]
      && s.frames[h].phase.Suspended?
  {
    assert PlaceOf(s, p)[0] in s.places[p];
  }

  lemma ClearSpares(s: State, t: State, h: Id, p: Place, d: Id, w: Holder)
    requires PlaceOf(s, p) == [h] && h in s.frames && p in s.places && t.ready == s.ready && d != h
    requires t.frames == s.frames[h := s.frames[h].(phase := Suspended(Nowhere))] && t.places == s.places[p := []]
    requires s.frames[h].phase.Suspended?
    ensures Holds(t, w, d) <==> Holds(s, w, d)
  {
    match w
    case InRing(i) =>
    case InPlace(p', i) =>
    case Continuation(c) =>
    case CallerSlot(f) =>
  }

  // ---------------------------------------------------------------------------
  // Awaiting a task that has already been started
  // ---------------------------------------------------------------------------

  /** Destroying frames changes no frame that is left, takes none of those out of the ready ring, and
      frees no frame older than the ones named. */
  ghost predicate Leaves(s: State, t: State, h: Id) {
    && t.stack == s.stack && t.next == s.next && (s.fault ==> t.fault)
    && (h in t.frames ==> h in s.frames && t.frames[h] == s.frames[h] && (h in s.ready ==> h in t.ready))
  }

  lemma {:induction false} KidsLeave(s: State, x: Id, h: Id)
    ensures Leaves(s, DestroyKids(s, x), h)
    ensures h in s.frames && h <= x ==> h in DestroyKids(s, x).frames
    decreases |s.frames.Keys|, s.next - x
  {
    var ks := set d | d in Kids(s.frames, x) && x < d < s.next;
    if ks != {} {
      var k := Youngest(ks);
      KidsLeave(s, k, h);
      var r := Free(DestroyKids(s, k), k);
      SubsetSmaller(r.frames.Keys, s.frames.Keys, k);
      KidsLeave(r, x, h);
    }
  }

  lemma {:induction false} AllLeave(s: State, xs: seq<Id>, h: Id)
    ensures Leaves(s, DestroyAll(s, xs), h)
    ensures h in s.frames && (forall i :: 0 <= i < |xs| ==> h < xs[i]) ==> h in DestroyAll(s, xs).frames
    decreases |xs|
  {
    if xs != [] {
      KidsLeave(s, xs[|xs| - 1], h);
      AllLeave(DestroyFrame(s, xs[|xs| - 1]), xs[..|xs| - 1], h);
    }
  }

  /** A running coroutine that somebody else can still resume. */
  ghost predicate ResumableTwice(t: State, c: Id) {
    c in t.frames && t.frames[c].phase.Running? && exists w :: w != CallerSlot(c) && Holds(t, w, c)
  }

  /** Awaiting an owned task resumes it on the spot. That keeps the discipline if the task was never
      started, has finished, or is held by no waker; otherwise the task now runs while another
      waker still holds its handle, or it is resumed inside a combinator that has no result. */
  lemma AwaitExact(s: State, c: Id)
    requires Inv(s) && Enabled(s, Await(c))
    ensures var t := Apply(s, Await(c));
      if forall w :: !Holds(s, w, c) then Inv(t) && !t.fault && !ResumableTwice(t, c)
      else t.fault || ResumableTwice(t, c)
    ensures (forall w :: !Holds(s, w, c)) <==> Orderly(s, Await(c))
  {
    OwnedNotRunning(s, c);
    if s.frames[c].phase.Suspended? {
      SomeWaker(s, c);
    } else {
      forall w
        ensures !Holds(s, w, c)
      {
        if Holds(s, w, c) {
          StoredHandlesLive(s, w, c);
        }
      }
    }
    if Orderly(s, Await(c)) {
      AwaitKeeps(s, c);
      NotTwice(Apply(s, Await(c)), c);
    } else {
      HeldResumed(s, c);
    }
  }

  lemma NotTwice(t: State, c: Id)
    requires Inv(t)
    ensures !ResumableTwice(t, c)
  {
    if ResumableTwice(t, c) {
      var w :| w != CallerSlot(c) && Holds(t, w, c);
      StoredHandlesLive(t, w, c);
    }
  }

  lemma HeldResumed(s: State, c: Id)
    requires Inv(s) && Enabled(s, Await(c)) && s.frames[c].phase.Suspended? && s.frames[c].phase != Suspended(Nowhere)
    ensures Apply(s, Await(c)).fault || ResumableTwice(Apply(s, Await(c)), c)
  {
    OwnedNotRunning(s, c);
    assert CombOk(s.frames, c);
    match s.frames[c].phase.at
    case At(p) => ListedResumed(s, c, p);
    case InReady => ReadyResumed(s, c);
    case OnChild(d) => ContinuedResumed(s, c, d);
    case OnCombinator =>
      var u := HandOver(s, c).(fault := true);
      AllLeave(u, u.frames[c].comb.kids, c);
  }

  lemma ListedResumed(s: State, c: Id, p: Place)
    requires PlaceInv(s) && Enabled(s, Await(c)) && Top(s) != c
    requires s.frames[c].phase == Suspended(At(p)) && s.frames[c].comb.NoComb?
    ensures ResumableTwice(Apply(s, Await(c)), c)
  {
    var t := Apply(s, Await(c));
    var i :| 0 <= i < |PlaceOf(s, p)| && PlaceOf(s, p)[i] == c;
    assert Holds(t, InPlace(p, i), c);
  }

  lemma ContinuedResumed(s: State, c: Id, d: Id)
    requires LinkInv(s) && Enabled(s, Await(c)) && Top(s) != c && s.frames[Top(s)].phase.Running?
    requires s.frames[c].phase == Suspended(OnChild(d)) && s.frames[c].comb.NoComb? && Top(s) < c
    requires d in s.frames && s.frames[d].owner == Some(c) ==> c < d
    ensures ResumableTwice(Apply(s, Await(c)), c)
  {
    var t := Apply(s, Await(c));
    assert s.frames[d].link == Continue(c);
    assert Holds(t, Continuation(d), c);
  }

  lemma ReadyResumed(s: State, c: Id)
    requires Inv(s) && Enabled(s, Await(c)) && Top(s) != c && s.frames[c].phase == Suspended(InReady)
    ensures ResumableTwice(Apply(s, Await(c)), c)
  {
    var u, t := HandOver(s, c), Apply(s, Await(c));
    assert c in s.ready && c in u.ready && u.frames[c].phase.Running?;
    if !u.frames[c].comb.NoComb? {
      assert CombOk(s.frames, c);
      KidsAreSiblings(s, c);
      AllLeave(u, u.frames[c].comb.kids, c);
    }
    assert c in t.ready && c in t.frames && t.frames[c].phase.Running?;
    var i :| 0 <= i < |t.ready| && t.ready[i] == c;
    assert Holds(t, InRing(i), c);
  }

  /** Runs without the discipline. */
  predicate Reaches(s: State, steps: seq<Step>, t: State)
    decreases |steps|
  {
    if steps == [] then t == s else Enabled(s, steps[0]) && Reaches(Apply(s, steps[0]), steps[1..], t)
  }

  function Root0(phase: Phase): Frame {
    Frame(phase, None, false, NoLink, NoComb)
  }

  function Kid1(phase: Phase, link: Link): Frame {
    Frame(phase, Some(0), false, link, NoComb)
  }

  lemma {:induction false} ReachesOn(s: State, steps: seq<Step>, t: State, step: Step)
    requires Reaches(s, steps, t) && Enabled(t, step)
    ensures Reaches(s, steps + [step], Apply(t, step))
    decreases |steps|
  {
    if steps == [] {
      assert steps + [step] == [step] && [step][1..] == [];
    } else {
      assert (steps + [step])[1..] == steps[1..] + [step];
      ReachesOn(Apply(s, steps[0]), steps[1..], t, step);
    }
  }

  function TwoFrames(cap: nat, root: Frame, kid: Frame): State {
    Init(cap).(frames := map[0 := root, 1 := kid], next := 2)
  }

  /** A coroutine creates a task. */
  lemma TaskCreated(cap: nat) returns (steps: seq<Step>)
    ensures Reaches(Init(cap), steps, TwoFrames(cap, Root0(Running), Kid1(NeverRun, NoLink)).(stack := [Act(0, 0)]))
  {
    var s1 := Init(cap).(frames := map[0 := Root0(NeverRun)], next := 1);
    assert Apply(Init(cap), Create) == s1;
    ReachesOn(Init(cap), [], Init(cap), Create);
    var s2 := s1.(frames := map[0 := Root0(Running)], stack := [Act(0, 0)]);
    assert Apply(s1, Start(0, false)) == s2;
    ReachesOn(Init(cap), [] + [Create], s1, Start(0, false));
    assert Apply(s2, Create) == TwoFrames(cap, Root0(Running), Kid1(NeverRun, NoLink)).(stack := [Act(0, 0)]);
    steps := [] + [Create] + [Start(0, false)];
    ReachesOn(Init(cap), steps, s2, Create);
    steps := steps + [Create];
  }

  /** ... starts it, and it suspends on list `p`. */
  lemma TaskWaits(cap: nat, p: Place) returns (steps: seq<Step>)
    requires p.WaitList?
    ensures Reaches(Init(cap), steps,
                    TwoFrames(cap, Root0(Running), Kid1(Suspended(At(p)), NoLink))
                    .(stack := [Act(0, 0)], places := map[p := [1]]))
  {
    steps := TaskCreated(cap);
    var s3 := TwoFrames(cap, Root0(Running), Kid1(NeverRun, NoLink)).(stack := [Act(0, 0)]);
    var s4 := TwoFrames(cap, Root0(Running), Kid1(Running, NoLink)).(stack := [Act(0, 0), Act(1, 1)]);
    assert Apply(s3, Start(1, false)) == s4;
    ReachesOn(Init(cap), steps, s3, Start(1, false));
    steps := steps + [Start(1, false)];
    SuspendsOn(s4, p);
    ReachesOn(Init(cap), steps, s4, Suspend(p, true));
    steps := steps + [Suspend(p, true)];
  }

  lemma SuspendsOn(s: State, p: Place)
    requires p.WaitList? && s.stack == [Act(0, 0), Act(1, 1)] && s.places == map[]
    requires s.frames == map[0 := Root0(Running), 1 := Kid1(Running, NoLink)]
    ensures Enabled(s, Suspend(p, true))
    ensures Apply(s, Suspend(p, true)) ==
      s.(frames := map[0 := Root0(Running), 1 := Kid1(Suspended(At(p)), NoLink)], stack := [Act(0, 0)],
         places := map[p := [1]])
  {
    assert [1] + PlaceOf(s, p) == [1];
    assert s.frames[1 := Kid1(Suspended(At(p)), NoLink)] ==
        map[0 := Root0(Running), 1 := Kid1(Suspended(At(p)), NoLink)];
  }

  /** Without the discipline: the coroutine then awaits the suspended task, which is resumed at
      once and suspends on list `q`; now two lists hold it. */
  lemma AwaitedTwiceHeld(cap: nat, p: Place, q: Place)
    requires p.WaitList? && q.WaitList? && p != q
    ensures exists steps, t ::
      Reaches(Init(cap), steps, t) && Holds(t, InPlace(p, 0), 1) && Holds(t, InPlace(q, 0), 1)
  {
    var steps := TaskWaits(cap, p);
    var s := TwoFrames(cap, Root0(Running), Kid1(Suspended(At(p)), NoLink))
             .(stack := [Act(0, 0)], places := map[p := [1]]);
    var u := TwoFrames(cap, Root0(Suspended(OnChild(1))), Kid1(Running, Continue(0)))
             .(stack := [Act(0, 1)], places := map[p := [1]]);
    HandsOver(s, u, p);
    ReachesOn(Init(cap), steps, s, Await(1));
    SecondList(u, p, q);
    ReachesOn(Init(cap), steps + [Await(1)], u, Suspend(q, true));
  }

  lemma HandsOver(s: State, u: State, p: Place)
    requires s.frames == map[0 := Root0(Running), 1 := Kid1(Suspended(At(p)), NoLink)] && s.stack == [Act(0, 0)]
    requires u == s.(frames := map[0 := Root0(Suspended(OnChild(1))), 1 := Kid1(Running, Continue(0))],
        stack := [Act(0, 1)])
    ensures Enabled(s, Await(1)) && Apply(s, Await(1)) == u
  {
    assert HandOver(s, 1) == u;
  }

  lemma SecondList(u: State, p: Place, q: Place)
    requires q.WaitList? && p != q && u.stack == [Act(0, 1)] && u.places == map[p := [1]]
    requires u.frames == map[0 := Root0(Suspended(OnChild(1))), 1 := Kid1(Running, Continue(0))]
    ensures Enabled(u, Suspend(q, true))
    ensures var t := Apply(u, Suspend(q, true)); Holds(t, InPlace(p, 0), 1) && Holds(t, InPlace(q, 0), 1)
  {
  }

  // ---------------------------------------------------------------------------
  // A large enough ring never refuses, and then no wake-up is lost
  // ---------------------------------------------------------------------------

  lemma RoomFor(s: State, h: Id)
    requires ReadyInv(s) && h in s.frames && s.frames[h].phase != Suspended(InReady) && |s.frames| <= s.cap
    ensures |s.ready| < s.cap
  {
    NoDupsFits(s.ready, s.frames.Keys - {h});
    assert |s.frames.Keys| == |s.frames|;
  }

  /** Nobody is suspended without a waker, except those in `lost`. */
  ghost predicate NoneLost(f: Frames, lost: set<Id>) {
    forall h :: h in f && f[h].phase == Suspended(Nowhere) ==> h in lost
  }

  lemma PostAccepted(s: State, h: Id, lost: set<Id>)
    requires ReadyInv(s) && h in s.frames && s.frames[h].phase != Suspended(InReady) && |s.frames| <= s.cap
    requires forall d :: d in s.frames && d != h && s.frames[d].phase == Suspended(Nowhere) ==> d in lost
    ensures Post(s, h).dropped == s.dropped && NoneLost(Post(s, h).frames, lost) && Post(s, h).cap == s.cap
  {
    RoomFor(s, h);
  }

  lemma WakeAccepted(s: State, p: Place, lost: set<Id>)
    requires Inv(s) && Enabled(s, Wake(p)) && |s.frames| <= s.cap && NoneLost(s.frames, lost)
    ensures var t := Apply(s, Wake(p)); t.dropped == s.dropped && NoneLost(t.frames, lost) && t.cap == s.cap
  {
    var u := s.(places := s.places[p := PlaceOf(s, p)[1..]]);
    TakeHeadPlaces(s, p);
    assert ReadyInv(u);
    PostAccepted(u, PlaceOf(s, p)[0], lost);
  }

  lemma YieldAccepted(s: State, lost: set<Id>)
    requires Inv(s) && Enabled(s, Yield) && |s.frames| <= s.cap && NoneLost(s.frames, lost)
    ensures var t := Apply(s, Yield); t.dropped == s.dropped && NoneLost(t.frames, lost) && t.cap == s.cap
  {
    TopRuns(s);
    PostAccepted(s, Top(s), lost);
  }

  lemma FreeKeepsCount(s: State, x: Id, lost: set<Id>)
    ensures Free(s, x).dropped == s.dropped && Free(s, x).cap == s.cap
    ensures NoneLost(s.frames, lost) ==> NoneLost(Free(s, x).frames, lost)
  {
  }

  lemma {:induction false} DestroyKidsCount(s: State, x: Id, lost: set<Id>)
    ensures var t := DestroyKids(s, x); t.dropped == s.dropped && t.cap == s.cap
    ensures NoneLost(s.frames, lost) ==> NoneLost(DestroyKids(s, x).frames, lost)
    decreases |s.frames.Keys|, s.next - x
  {
    var ks := set d | d in Kids(s.frames, x) && x < d < s.next;
    if ks != {} {
      var k := Youngest(ks);
      DestroyKidsCount(s, k, lost);
      FreeKeepsCount(DestroyKids(s, k), k, lost);
      var r := Free(DestroyKids(s, k), k);
      SubsetSmaller(r.frames.Keys, s.frames.Keys, k);
      DestroyKidsCount(r, x, lost);
    }
  }

  lemma {:induction false} DestroyAllCount(s: State, xs: seq<Id>, lost: set<Id>)
    ensures var t := DestroyAll(s, xs); t.dropped == s.dropped && t.cap == s.cap
    ensures NoneLost(s.frames, lost) ==> NoneLost(DestroyAll(s, xs).frames, lost)
    decreases |xs|
  {
    if xs != [] {
      var x := xs[|xs| - 1];
      DestroyKidsCount(s, x, lost);
      FreeKeepsCount(DestroyKids(s, x), x, lost);
      DestroyAllCount(DestroyFrame(s, x), xs[..|xs| - 1], lost);
    }
  }

  lemma EndAccepted(s: State, p: Id, lost: set<Id>)
    requires p in s.frames && NoneLost(s.frames, lost)
    ensures var t := EndCombinator(s, p); t.dropped == s.dropped && NoneLost(t.frames, lost) && t.cap == s.cap
  {
    if !s.frames[p].comb.NoComb? {
      DestroyAllCount(s, s.frames[p].comb.kids, lost);
    }
  }

  /** `t` refused nothing that `s` had not refused, and has lost nobody. */
  ghost predicate Lossless(s: State, t: State, lost: set<Id>) {
    t.dropped == s.dropped && NoneLost(t.frames, lost) && t.cap == s.cap
  }

  lemma SizeByKeys(f: Frames, g: Frames)
    requires g.Keys <= f.Keys
    ensures |g| <= |f|
  {
    SubsetSize(g.Keys, f.Keys);
    assert |g.Keys| == |g| && |f.Keys| == |f|;
  }

  lemma AfterFinishAccepted(s: State, lost: set<Id>)
    requires Inv(s) && Executing(s) && |s.frames| <= s.cap && NoneLost(s.frames, lost)
    requires !s.frames[Top(s)].detached && Kids(s.frames, Top(s)) == {}
    ensures Lossless(s, AfterFinish(SetPhase(s, Top(s), Done), Top(s), s.frames[Top(s)].link), lost)
  {
    var r := Top(s);
    TopRuns(s);
    var u := SetPhase(s, r, Done);
    if s.frames[r].link.Notify? {
      NotifyAccepted(s, u, r, s.frames[r].link.to, lost);
    }
  }

  lemma NotifyAccepted(s: State, u: State, r: Id, p: Id, lost: set<Id>)
    requires Inv(s) && r in s.frames && s.frames[r].phase.Running? && s.frames[r].link == Notify(p)
    requires |s.frames| <= s.cap && NoneLost(s.frames, lost) && u == SetPhase(s, r, Done)
    ensures Lossless(s, NotifyParent(u, p, r), lost)
  {
    HookedKid(s, r, p);
    NotifiedComb(s.frames, u.frames, p, r);
    NotifyIs(u, p, r);
    var (c, woken) := Notified(s.frames[p].comb, r);
    if woken {
      DuePost(s, u, r, p, c, lost);
    }
  }

  lemma DuePost(s: State, u: State, r: Id, p: Id, c: Comb, lost: set<Id>)
    requires ReadyInv(s) && r in s.frames && p in s.frames && p != r && s.frames[r].phase.Running?
    requires s.frames[p].phase == Suspended(OnCombinator) && |s.frames| <= s.cap && NoneLost(s.frames, lost)
    requires u == SetPhase(s, r, Done)
    ensures Lossless(s, Post(SetPhase(SetComb(u, p, c), p, Suspended(Nowhere)), p), lost)
  {
    var v := SetPhase(SetComb(u, p, c), p, Suspended(Nowhere));
    assert v.frames.Keys == s.frames.Keys;
    SizeByKeys(s.frames, v.frames);
    assert ReadyInv(v);
    PostAccepted(v, p, lost);
  }

  lemma FinishAccepted(s: State, lost: set<Id>)
    requires Inv(s) && Enabled(s, Finish) && |s.frames| <= s.cap && NoneLost(s.frames, lost)
    ensures Lossless(s, Apply(s, Finish), lost)
  {
    LocalsGone(s);
    DestroyKidsCount(s, Top(s), lost);
    var t := DestroyKids(s, Top(s));
    SizeByKeys(s.frames, t.frames);
    if !t.frames[Top(s)].detached {
      AfterFinishAccepted(t, lost);
    }
  }

  lemma DestroyAccepted(s: State, x: Id, lost: set<Id>)
    requires NoneLost(s.frames, lost)
    ensures Lossless(s, DestroyFrame(s, x), lost)
  {
    OneIsAll(s, x);
    DestroyAllCount(s, [x], lost);
  }

  lemma DispatchAccepted(s: State, lost: set<Id>)
    requires Inv(s) && Enabled(s, Dispatch) && NoneLost(s.frames, lost)
    ensures Lossless(s, Apply(s, Dispatch), lost)
  {
    DispatchShape(s);
    var h := s.ready[0];
    EndAccepted(SetPhase(s.(ready := s.ready[1..]), h, Running).(stack := [Act(h, h)]), h, lost);
  }

  lemma DecideAccepted(s: State, lost: set<Id>)
    requires Inv(s) && Enabled(s, Decide) && NoneLost(s.frames, lost)
    ensures Lossless(s, Apply(s, Decide), lost)
  {
    TopRuns(s);
    DecideParks(s);
    EndAccepted(s, Top(s), lost);
  }

  lemma AwaitAccepted(s: State, c: Id, lost: set<Id>)
    requires Inv(s) && Enabled(s, Await(c)) && NoneLost(s.frames, lost)
    ensures Lossless(s, Apply(s, Await(c)), lost)
  {
    if !s.frames[c].phase.Done? {
      OwnedNotRunning(s, c);
      EndAccepted(HandOver(s, c), c, lost);
      EndAccepted(HandOver(s, c).(fault := true), c, lost);
    }
  }

  /** Steps that only start, suspend or hook up coroutines. */
  lemma QuietAccepted(s: State, step: Step, lost: set<Id>)
    requires Enabled(s, step) && NoneLost(s.frames, lost)
    requires step.Create? || step.Start? || step.Suspend? || step.Combine? || step.StartKid?
    ensures Lossless(s, Apply(s, step), lost)
  {
  }

  /** With room for every live coroutine, no post is refused and no wake-up is lost. */
  lemma StepLosesNothing(s: State, step: Step, lost: set<Id>)
    requires Inv(s) && Enabled(s, step) && Orderly(s, step) && !step.Clear?
    requires |s.frames| <= s.cap && NoneLost(s.frames, lost)
    ensures Lossless(s, Apply(s, step), lost)
  {
    match step
    case Wake(p) => WakeAccepted(s, p, lost);
    case Yield => YieldAccepted(s, lost);
    case Finish => FinishAccepted(s, lost);
    case Cancel(x) => DestroyAccepted(s, x, lost);
    case Detach(x) => DetachAccepted(s, x, lost);
    case Decide => DecideAccepted(s, lost);
    case Dispatch => DispatchAccepted(s, lost);
    case Await(c) => AwaitAccepted(s, c, lost);
    case _ => QuietAccepted(s, step, lost);
  }

  lemma DetachAccepted(s: State, x: Id, lost: set<Id>)
    requires Enabled(s, Detach(x)) && NoneLost(s.frames, lost)
    ensures Lossless(s, Apply(s, Detach(x)), lost)
  {
    DestroyAccepted(s, x, lost);
  }

  ghost predicate RingCovers(s: State, steps: seq<Step>)
    decreases |steps|
  {
    |s.frames| <= s.cap && (steps != [] && Enabled(s, steps[0]) ==> RingCovers(Apply(s, steps[0]), steps[1..]))
  }

  /** `lost`, and the coroutine whose slot the step clears, if it clears one. */
  function Losing(s: State, step: Step, lost: set<Id>): set<Id> {
    if step.Clear? && PlaceOf(s, step.p) != [] then lost + {PlaceOf(s, step.p)[0]} else lost
  }

  /** `lost`, and the coroutines whose slots another awaiter's destructor clears in the run. */
  function ClearedIn(s: State, steps: seq<Step>, lost: set<Id>): set<Id>
    decreases |steps|
  {
    if steps == [] || !Enabled(s, steps[0]) then lost
    else ClearedIn(Apply(s, steps[0]), steps[1..], Losing(s, steps[0], lost))
  }

  lemma StepLoses(s: State, step: Step, lost: set<Id>)
    requires Inv(s) && Enabled(s, step) && Orderly(s, step) && |s.frames| <= s.cap && NoneLost(s.frames, lost)
    ensures Lossless(s, Apply(s, step), Losing(s, step, lost))
  {
    if !step.Clear? {
      StepLosesNothing(s, step, lost);
    }
  }

  lemma {:induction false} RunLosesNothing(s: State, steps: seq<Step>, t: State, lost: set<Id>)
    requires Inv(s) && Runs(s, steps, t) && RingCovers(s, steps) && NoneLost(s.frames, lost)
    ensures t.dropped == s.dropped && NoneLost(t.frames, ClearedIn(s, steps, lost)) && Inv(t)
    decreases |steps|
  {
    if steps != [] {
      StepKeeps(s, steps[0]);
      StepLoses(s, steps[0], lost);
      RunLosesNothing(Apply(s, steps[0]), steps[1..], t, Losing(s, steps[0], lost));
    }
  }

  /** In every run whose ready ring is at least as large as the number of live coroutines, no
      post is refused; and every suspended coroutine has exactly one waker, except one whose
      slot another awaiter's destructor cleared, which has none. */
  lemma LargeRingExactlyOneWaker(cap: nat, steps: seq<Step>, t: State, h: Id)
    requires Runs(Init(cap), steps, t) && RingCovers(Init(cap), steps)
    requires h in t.frames && t.frames[h].phase.Suspended?
    ensures t.dropped == 0
    ensures || (exists w :: Holds(t, w, h) && forall v :: Holds(t, v, h) ==> v == w)
            || (h in ClearedIn(Init(cap), steps, {}) && forall w :: !Holds(t, w, h))
  {
    InitInv(cap);
    RunLosesNothing(Init(cap), steps, t, {});
    SomeWaker(t, h);
    if exists w :: Holds(t, w, h) {
      var w :| Holds(t, w, h);
      forall v | Holds(t, v, h)
        ensures v == w
      {
        OneWaker(t, v, w, h);
      }
    }
  }
}
