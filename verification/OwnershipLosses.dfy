/** Which suspended coroutines have lost their waker, told from the run alone: those whose post the
    ring refused and those whose slot another awaiter's destructor cleared. */
module OwnershipLosses {
  import opened Prelude
  import opened Ownership
  import opened OwnershipProofs
  import opened OwnershipSteps
  import opened OwnershipEnds
  import opened OwnershipSafety

  /** The coroutine whose post the step had refused. */
  function RefusedBy(s: State, step: Step): set<Id>
    requires Enabled(s, step)
  {
    if Apply(s, step).dropped == s.dropped then {}
    else match step
      case Wake(p) => {PlaceOf(s, p)[0]}
      case Yield => {Top(s)}
      case Finish => if s.frames[Top(s)].link.Notify? then {s.frames[Top(s)].link.to} else {}
      case _ => {}
  }

  /** The coroutines without a waker after the step, if `lost` were those before it. */
  function LostAfter(s: State, step: Step, lost: set<Id>): set<Id>
    requires Enabled(s, step)
  {
    var left := if step.Await? then lost - {step.c} else lost;
    Losing(s, step, left) + RefusedBy(s, step)
  }

  function LostIn(s: State, steps: seq<Step>, lost: set<Id>): set<Id>
    decreases |steps|
  {
    if steps == [] || !Enabled(s, steps[0]) then lost
    else LostIn(Apply(s, steps[0]), steps[1..], LostAfter(s, steps[0], lost))
  }

  ghost predicate Marks(f: Frames, lost: set<Id>) {
    forall h :: h in f ==> (f[h].phase == Suspended(Nowhere) <==> h in lost)
  }

  ghost predicate LostInv(s: State, lost: set<Id>) {
    Marks(s.frames, lost) && forall h :: h in lost ==> h < s.next
  }

  // ---------------------------------------------------------------------------
  // One step
  // ---------------------------------------------------------------------------

  /** The frames left are as they were, except perhaps for `d`, and nothing was refused. */
  ghost predicate Quiet(s: State, t: State, d: Id) {
    && t.dropped == s.dropped && t.next == s.next
    && forall h :: h in t.frames && h != d ==> h in s.frames && t.frames[h].phase == s.frames[h].phase
  }

  lemma QuietMarks(s: State, t: State, d: Id, lost: set<Id>)
    requires LostInv(s, lost) && Quiet(s, t, d)
    requires d in t.frames ==> (t.frames[d].phase == Suspended(Nowhere) <==> d in lost)
    ensures LostInv(t, lost)
  {
  }

  lemma EndQuiet(s: State, p: Id)
    requires p in s.frames
    ensures Quiet(s, EndCombinator(s, p), p)
    ensures p in EndCombinator(s, p).frames ==> EndCombinator(s, p).frames[p].phase == s.frames[p].phase
  {
    if !s.frames[p].comb.NoComb? {
      var kids := s.frames[p].comb.kids;
      var t := DestroyAll(s, kids);
      DestroyAllCount(s, kids, {});
      AllLeave(s, kids, p);
      forall h | h in t.frames
        ensures h in s.frames && t.frames[h] == s.frames[h]
      {
        AllLeave(s, kids, h);
      }
    }
  }

  lemma DestroyQuiet(s: State, x: Id)
    ensures Quiet(s, DestroyFrame(s, x), x) && x !in DestroyFrame(s, x).frames
  {
    KidsQuiet(s, x);
  }

  lemma KidsQuiet(s: State, x: Id)
    ensures var t := DestroyKids(s, x);
      && t.dropped == s.dropped && t.next == s.next
      && forall h :: h in t.frames ==> h in s.frames && t.frames[h] == s.frames[h]
  {
    var t := DestroyKids(s, x);
    DestroyKidsCount(s, x, {});
    forall h | h in t.frames
      ensures h in s.frames && t.frames[h] == s.frames[h]
    {
      KidsLeave(s, x, h);
    }
  }

  lemma CreateLoses(s: State, lost: set<Id>)
    requires LostInv(s, lost) && Enabled(s, Create)
    ensures LostInv(Apply(s, Create), lost) && Apply(s, Create).dropped == s.dropped
  {
  }

  lemma StartLoses(s: State, step: Step, lost: set<Id>)
    requires Inv(s) && LostInv(s, lost) && Enabled(s, step) && (step.Start? || step.Suspend?)
    ensures LostInv(Apply(s, step), lost) && Apply(s, step).dropped == s.dropped
  {
    if s.stack != [] {
      TopRuns(s);
    }
  }

  lemma StartKidLoses(s: State, lost: set<Id>)
    requires Inv(s) && LostInv(s, lost) && Enabled(s, StartKid)
    ensures LostInv(Apply(s, StartKid), lost) && Apply(s, StartKid).dropped == s.dropped
  {
    StartKidShape(s);
  }

  lemma CombineLoses(s: State, kids: seq<Id>, any: bool, lost: set<Id>)
    requires LostInv(s, lost) && Enabled(s, Combine(kids, any))
    ensures LostInv(Apply(s, Combine(kids, any)), lost) && Apply(s, Combine(kids, any)).dropped == s.dropped
  {
    var t := Apply(s, Combine(kids, any));
    assert t.frames.Keys == s.frames.Keys && forall h :: h in s.frames ==> t.frames[h].phase == s.frames[h].phase;
  }

  /** Steps that only start, suspend or hook up coroutines. */
  lemma HookLoses(s: State, step: Step, lost: set<Id>)
    requires Inv(s) && LostInv(s, lost) && Enabled(s, step)
    requires step.Start? || step.Suspend? || step.Combine? || step.StartKid?
    ensures LostInv(Apply(s, step), lost) && Apply(s, step).dropped == s.dropped
  {
    if step.Start? || step.Suspend? {
      StartLoses(s, step, lost);
    } else if step.StartKid? {
      StartKidLoses(s, lost);
    } else {
      CombineLoses(s, step.kids, step.any, lost);
    }
  }

  lemma PostLoses(s: State, h: Id, lost: set<Id>)
    requires h in s.frames && h !in lost && h < s.next
    requires forall d :: d in s.frames && d != h ==> (s.frames[d].phase == Suspended(Nowhere) <==> d in lost)
    requires forall d :: d in lost ==> d < s.next
    ensures var t := Post(s, h); LostInv(t, if t.dropped == s.dropped then lost else lost + {h})
  {
  }

  lemma WakeLoses(s: State, p: Place, lost: set<Id>)
    requires Inv(s) && LostInv(s, lost) && Enabled(s, Wake(p))
    ensures LostInv(Apply(s, Wake(p)), lost + RefusedBy(s, Wake(p)))
  {
    TakeHeadPlaces(s, p);
    PostLoses(s.(places := s.places[p := PlaceOf(s, p)[1..]]), PlaceOf(s, p)[0], lost);
    assert lost + {} == lost;
  }

  lemma YieldLoses(s: State, lost: set<Id>)
    requires Inv(s) && LostInv(s, lost) && Enabled(s, Yield)
    ensures LostInv(Apply(s, Yield), lost + RefusedBy(s, Yield))
  {
    TopRuns(s);
    PostLoses(s, Top(s), lost);
    assert lost + {} == lost;
  }

  lemma ClearLoses(s: State, p: Place, lost: set<Id>)
    requires Inv(s) && LostInv(s, lost) && Enabled(s, Clear(p))
    ensures LostInv(Apply(s, Clear(p)), lost + {PlaceOf(s, p)[0]}) && Apply(s, Clear(p)).dropped == s.dropped
  {
    ClearShape(s, p);
  }

  lemma DecideLoses(s: State, lost: set<Id>)
    requires Inv(s) && LostInv(s, lost) && Enabled(s, Decide)
    ensures LostInv(Apply(s, Decide), lost) && Apply(s, Decide).dropped == s.dropped
  {
    TopRuns(s);
    EndQuiet(s, Top(s));
    var t := Apply(s, Decide);
    if t == EndCombinator(s, Top(s)) {
      QuietMarks(s, t, Top(s), lost);
    }
  }

  lemma DispatchLoses(s: State, lost: set<Id>)
    requires Inv(s) && LostInv(s, lost) && Enabled(s, Dispatch)
    ensures LostInv(Apply(s, Dispatch), lost) && Apply(s, Dispatch).dropped == s.dropped
  {
    var h := s.ready[0];
    DispatchShape(s);
    var w := SetPhase(s.(ready := s.ready[1..]), h, Running).(stack := [Act(h, h)]);
    EndQuiet(w, h);
    QuietMarks(w, EndCombinator(w, h), h, lost);
  }

  lemma AwaitLoses(s: State, c: Id, lost: set<Id>)
    requires Inv(s) && LostInv(s, lost) && Enabled(s, Await(c)) && Orderly(s, Await(c))
    ensures LostInv(Apply(s, Await(c)), lost - {c}) && Apply(s, Await(c)).dropped == s.dropped
  {
    if !s.frames[c].phase.Done? {
      OwnedNotRunning(s, c);
      TopRuns(s);
      var u := HandOver(s, c);
      assert LostInv(u, lost - {c});
      EndQuiet(u, c);
      QuietMarks(u, EndCombinator(u, c), c, lost - {c});
    }
  }

  lemma DestroyLoses(s: State, x: Id, lost: set<Id>)
    requires LostInv(s, lost)
    ensures LostInv(DestroyFrame(s, x), lost) && DestroyFrame(s, x).dropped == s.dropped
  {
    DestroyQuiet(s, x);
    QuietMarks(s, DestroyFrame(s, x), x, lost);
  }

  lemma DetachLoses(s: State, x: Id, lost: set<Id>)
    requires LostInv(s, lost) && Enabled(s, Detach(x))
    ensures LostInv(Apply(s, Detach(x)), lost) && Apply(s, Detach(x)).dropped == s.dropped
  {
    DestroyLoses(s, x, lost);
  }

  /** A finished child and its combinator's new state hide nobody and find nobody. */
  lemma DoneMarks(s: State, r: Id, p: Id, c: Comb, lost: set<Id>)
    requires LostInv(s, lost) && r in s.frames && s.frames[r].phase.Running? && p in s.frames && p != r
    ensures LostInv(SetComb(SetPhase(s, r, Done), p, c), lost)
  {
  }

  lemma DueLoses(u: State, p: Id, lost: set<Id>)
    requires LostInv(u, lost) && p in u.frames && p < u.next && u.frames[p].phase == Suspended(OnCombinator)
    ensures var t := Post(SetPhase(u, p, Suspended(Nowhere)), p);
      LostInv(t, if t.dropped == u.dropped then lost else lost + {p})
  {
    PostLoses(SetPhase(u, p, Suspended(Nowhere)), p, lost);
  }

  /** A child's completion posts at most its combinator's caller. */
  lemma NotifyLoses(s: State, r: Id, p: Id, lost: set<Id>)
    requires Inv(s) && LostInv(s, lost) && r in s.frames && s.frames[r].phase.Running? && s.frames[r].link == Notify(p)
    ensures var t := NotifyParent(SetPhase(s, r, Done), p, r);
      LostInv(t, if t.dropped == s.dropped then lost else lost + {p})
  {
    var u := SetPhase(s, r, Done);
    HookedKid(s, r, p);
    NotifiedComb(s.frames, u.frames, p, r);
    NotifyIs(u, p, r);
    var (c, woken) := Notified(s.frames[p].comb, r);
    DoneMarks(s, r, p, c, lost);
    if woken {
      DueLoses(SetComb(u, p, c), p, lost);
    }
  }

  /** The end of a coroutine whose own tasks are gone. */
  lemma LeaveLoses(s: State, lost: set<Id>)
    requires Inv(s) && Executing(s) && LostInv(s, lost)
    requires !s.frames[Top(s)].detached && Kids(s.frames, Top(s)) == {}
    ensures var r, link := Top(s), s.frames[Top(s)].link;
      var t := AfterFinish(SetPhase(s, r, Done), r, link);
      && LostInv(t, if t.dropped == s.dropped then lost else lost + {if link.Notify? then link.to else 0})
      && (t.dropped != s.dropped ==> link.Notify?)
  {
    var r := Top(s);
    TopRuns(s);
    match s.frames[r].link
    case NoLink =>
    case Continue(k) => ContinueLoses(s, r, k, lost);
    case Notify(p) =>
      NotifyLoses(s, r, p, lost);
      PopNotify(SetPhase(s, r, Done), p, r);
  }

  lemma ContinueLoses(s: State, r: Id, k: Id, lost: set<Id>)
    requires LinkInv(s) && s.stack != [] && LostInv(s, lost) && r in s.frames && s.frames[r].phase.Running?
    requires s.frames[r].link == Continue(k)
    ensures var t := Transfer(SetPhase(s, r, Done), k); LostInv(t, lost) && t.dropped == s.dropped
  {
  }

  lemma FinishLoses(s: State, lost: set<Id>)
    requires Inv(s) && LostInv(s, lost) && Enabled(s, Finish)
    ensures LostInv(Apply(s, Finish), lost + RefusedBy(s, Finish))
  {
    var r := Top(s);
    LocalsGone(s);
    KidsQuiet(s, r);
    var t := DestroyKids(s, r);
    QuietMarks(s, t, r, lost);
    if !t.frames[r].detached {
      LeaveLoses(t, lost);
    }
    assert lost + {} == lost;
  }

  lemma NothingRefused(s: State, step: Step, lost: set<Id>)
    requires Enabled(s, step) && Apply(s, step).dropped == s.dropped
    ensures lost + RefusedBy(s, step) == lost
  {
  }

  /** Steps that neither post nor clear nor await. */
  lemma OtherMarks(s: State, step: Step, lost: set<Id>)
    requires Inv(s) && LostInv(s, lost) && Enabled(s, step)
    requires !step.Await? && !step.Yield? && !step.Wake? && !step.Clear? && !step.Finish?
    ensures LostInv(Apply(s, step), lost) && Apply(s, step).dropped == s.dropped
  {
    match step
    case Create => CreateLoses(s, lost);
    case Decide => DecideLoses(s, lost);
    case Cancel(x) => DestroyLoses(s, x, lost);
    case Detach(x) => DetachLoses(s, x, lost);
    case Dispatch => DispatchLoses(s, lost);
    case _ => HookLoses(s, step, lost);
  }

  lemma StepMarks(s: State, step: Step, lost: set<Id>)
    requires Inv(s) && LostInv(s, lost) && Enabled(s, step) && Orderly(s, step)
    ensures LostInv(Apply(s, step), LostAfter(s, step, lost))
  {
    if step.Yield? {
      YieldLoses(s, lost);
    } else if step.Wake? {
      WakeLoses(s, step.p, lost);
    } else if step.Finish? {
      FinishLoses(s, lost);
    } else if step.Await? {
      AwaitLoses(s, step.c, lost);
      NothingRefused(s, step, lost - {step.c});
    } else if step.Clear? {
      ClearLoses(s, step.p, lost);
      NothingRefused(s, step, lost + {PlaceOf(s, step.p)[0]});
    } else {
      OtherMarks(s, step, lost);
      NothingRefused(s, step, lost);
    }
  }

  lemma {:induction false} RunMarks(s: State, steps: seq<Step>, t: State, lost: set<Id>)
    requires Inv(s) && Runs(s, steps, t) && LostInv(s, lost)
    ensures Inv(t) && LostInv(t, LostIn(s, steps, lost))
    decreases |steps|
  {
    if steps != [] {
      StepKeeps(s, steps[0]);
      StepMarks(s, steps[0], lost);
      RunMarks(Apply(s, steps[0]), steps[1..], t, LostAfter(s, steps[0], lost));
    }
  }

  /** In every run, whatever the size of the ready ring: a suspended coroutine has a waker, unless
      the ring refused its post or another awaiter's destructor cleared its slot, and nobody that
      owns it has awaited it since; then it has none. */
  lemma WakerLostExactly(cap: nat, steps: seq<Step>, t: State, h: Id)
    requires Runs(Init(cap), steps, t) && h in t.frames && t.frames[h].phase.Suspended?
    ensures (exists w :: Holds(t, w, h)) <==> h !in LostIn(Init(cap), steps, {})
  {
    InitInv(cap);
    RunMarks(Init(cap), steps, t, {});
    SomeWaker(t, h);
  }
}
