/** Coroutine frames, the handles that can wake them, and the single AbstractX
    thread that runs them: `Task`, the awaiters' registration and withdrawal, the
    two combinators, `spawn` and the dispatcher's ready ring as one transition system.

    A frame is named by its creation number, so a handle to a freed frame is never
    mistaken for a later frame that happens to reuse the same storage. The `Where`
    recorded in a suspended frame is bookkeeping that the proofs use: no transition
    reads it, except that an awaiter's destructor knows its own wait list. */
module Ownership {
  import opened Prelude

  type Id = nat

  /** A slot or wait list that can hold coroutine handles. */
  datatype Place = WaitList(k: nat) | TagSlot(t: nat) | StreamSlot(c: nat)

  datatype Where = At(p: Place) | InReady | OnChild(c: Id) | OnCombinator | Nowhere
  datatype Phase = NeverRun | Running | Suspended(at: Where) | Done

  /** What a frame's final suspend does: `continuation_`, or `on_complete_` of a combinator. */
  datatype Link = NoLink | Continue(to: Id) | Notify(to: Id)

  /** The combinator awaiter living in a frame. `caller` says whether `caller_` is still set. */
  datatype Comb =
    | NoComb
    | All(kids: seq<Id>, started: nat, remaining: nat, caller: bool)
    | Any(kids: seq<Id>, started: nat, winner: Option<Id>, stage: nat, caller: bool)

  datatype Frame = Frame(phase: Phase, owner: Option<Id>, detached: bool, link: Link, comb: Comb)
  type Frames = map<Id, Frame>

  /** One nested resume: the frame it entered, and the frame now running in it. */
  datatype Act = Act(base: Id, cur: Id)

  /** `fault` records that freed or unsuspended storage was resumed, notified or destroyed. */
  datatype State = State(
    frames: Frames, next: Id, stack: seq<Act>, ready: seq<Id>, places: map<Place, seq<Id>>,
    cap: nat, dropped: nat, fault: bool)

  const INIT_FRAMES: Frames := map[]

  function Init(cap: nat): State {
    State(INIT_FRAMES, 0, [], [], map[], cap, 0, false)
  }

  function PlaceOf(s: State, p: Place): seq<Id> {
    if p in s.places then s.places[p] else []
  }

  // ---------------------------------------------------------------------------
  // Owned subtrees
  // ---------------------------------------------------------------------------

  /** `d` is `a` or is owned, through any number of owners, by `a`. */
  predicate Under(f: Frames, d: Id, a: Id)
    decreases d
  {
    d in f && (d == a || (f[d].owner.Some? && f[d].owner.value < d && Under(f, f[d].owner.value, a)))
  }

  function Sub(f: Frames, x: Id): set<Id> {
    set d | d in f && Under(f, d, x)
  }

  function Kids(f: Frames, x: Id): set<Id> {
    set d | d in f && f[d].owner == Some(x)
  }

  function Youngest(ids: set<Id>): (m: Id)
    requires ids != {}
    ensures m in ids && forall d :: d in ids ==> d <= m
  {
    YoungestExists(ids);
    var m :| m in ids && forall d :: d in ids ==> d <= m;
    m
  }

  lemma {:induction false} YoungestExists(ids: set<Id>)
    requires ids != {}
    ensures exists m :: m in ids && forall d :: d in ids ==> d <= m
  {
    var m :| m in ids;
    if ids != {m} {
      YoungestExists(ids - {m});
      var n :| n in ids - {m} && forall d :: d in ids - {m} ==> d <= n;
      assert forall d :: d in ids ==> d == m || d in ids - {m};
      assert (if m <= n then n else m) in ids;
    }
  }

  // ---------------------------------------------------------------------------
  // Destroying a frame
  // ---------------------------------------------------------------------------

  /** `destroy_frame` of a frame whose own tasks are gone: the pending awaiter's destructor
      withdraws the handle from its list or slot, the storage is freed, and the ready ring
      is purged of every copy. */
  function Free(s: State, x: Id): State {
    if x !in s.frames then s.(fault := true)
    else
      var ph := s.frames[x].phase;
      var places := match ph
        case Suspended(At(p)) => if p in s.places then s.places[p := Without(s.places[p], {x})] else s.places
        case _ => s.places;
      s.(frames := s.frames - {x}, places := places, ready := Without(s.ready, {x}),
         fault := s.fault || ph.Running?)
  }

  /** Runs the destructors of the task objects living in `x`, youngest first; each of them
      first destroys the tasks living in its own frame. */
  function DestroyKids(s: State, x: Id): (r: State)
    ensures r.frames.Keys <= s.frames.Keys && r.next == s.next && r.stack == s.stack
    decreases |s.frames.Keys|, s.next - x
  {
    var ks := set d | d in Kids(s.frames, x) && x < d < s.next;
    if ks == {} then s
    else
      var k := Youngest(ks);
      var r := Free(DestroyKids(s, k), k);
      assert r.frames.Keys <= s.frames.Keys - {k};
      SubsetSmaller(r.frames.Keys, s.frames.Keys, k);
      DestroyKids(r, x)
  }

  lemma SubsetSmaller(a: set<Id>, b: set<Id>, k: Id)
    requires k in b && a <= b - {k}
    ensures |a| < |b|
  {
    SubsetSize(a, b - {k});
  }

  function DestroyFrame(s: State, x: Id): State {
    Free(DestroyKids(s, x), x)
  }

  function DestroyAll(s: State, xs: seq<Id>): State
    decreases xs
  {
    if xs == [] then s
    else DestroyAll(DestroyFrame(s, xs[|xs| - 1]), xs[..|xs| - 1])
  }

  // ---------------------------------------------------------------------------
  // Pieces of the transitions
  // ---------------------------------------------------------------------------

  function SetPhase(s: State, h: Id, ph: Phase): State {
    if h in s.frames then s.(frames := s.frames[h := s.frames[h].(phase := ph)]) else s
  }

  function SetComb(s: State, h: Id, c: Comb): State {
    if h in s.frames then s.(frames := s.frames[h := s.frames[h].(comb := c)]) else s
  }

  /** `post`: the ring takes the handle, or refuses it and counts the refusal. */
  function Post(s: State, h: Id): State {
    if |s.ready| < s.cap then SetPhase(s.(ready := s.ready + [h]), h, Suspended(InReady))
    else SetPhase(s.(dropped := s.dropped + 1), h, Suspended(Nowhere))
  }

  function Top(s: State): Id
    requires s.stack != []
  {
    s.stack[|s.stack| - 1].cur
  }

  function Pop(s: State): State
    requires s.stack != []
  {
    s.(stack := s.stack[..|s.stack| - 1])
  }

  function SetTop(s: State, h: Id): State
    requires s.stack != []
  {
    var n := |s.stack| - 1;
    s.(stack := s.stack[..n] + [Act(s.stack[n].base, h)])
  }

  /** The coroutine `k` is resumed in place of the one that just left the top of the stack. */
  function Transfer(s: State, k: Id): State
    requires s.stack != []
  {
    if k in s.frames && s.frames[k].phase.Suspended? then SetTop(SetPhase(s, k, Running), k)
    else s.(fault := true)
  }

  /** `await_resume` of a combinator and the end of its awaiter: the loser is cancelled, and
      the finished children leave with the awaiter. */
  function EndCombinator(s: State, p: Id): State {
    if p !in s.frames then s.(fault := true)
    else if s.frames[p].comb.NoComb? then s
    else SetComb(DestroyAll(s, s.frames[p].comb.kids), p, NoComb)
  }

  /** `on_complete_` of a combinator's child `c`: `notify_done` or `notify_winner`. */
  function NotifyParent(s: State, p: Id, c: Id): State {
    if p !in s.frames then s.(fault := true)
    else match s.frames[p].comb
      case NoComb => s.(fault := true)
      case All(kids, started, remaining, caller) =>
        if remaining == 0 then s.(fault := true)
        else if remaining == 1 && caller then Post(SetComb(s, p, All(kids, started, 0, false)), p)
        else SetComb(s, p, All(kids, started, remaining - 1, caller))
      case Any(kids, started, winner, stage, caller) =>
        if winner.Some? then s
        else if stage == 1 && caller then Post(SetComb(s, p, Any(kids, started, Some(c), 2, false)), p)
        else SetComb(s, p, Any(kids, started, Some(c), 2, caller))
  }

  /** `co_await` of the unfinished task `c`: it gets the awaiting coroutine as its continuation and
      is resumed in its place. */
  function HandOver(s: State, c: Id): State
    requires s.stack != [] && c in s.frames
  {
    var r := Top(s);
    var f := SetPhase(s, r, Suspended(OnChild(c))).frames;
    SetTop(s.(frames := f[c := f[c].(phase := Running, link := Continue(r))]), c)
  }

  function AwaitTask(s: State, c: Id): State
    requires s.stack != [] && c in s.frames
  {
    match s.frames[c].phase
    case Done => s
    case NeverRun => HandOver(s, c)
    case Running => s.(fault := true)
    case Suspended(at) =>
      // resumed where it is suspended; `await_resume` of an unfinished combinator has no result
      EndCombinator(if at == OnCombinator then HandOver(s, c).(fault := true) else HandOver(s, c), c)
  }

  function AfterFinish(s: State, r: Id, link: Link): State
    requires s.stack != []
  {
    match link
    case NoLink => Pop(s)
    case Continue(k) => Transfer(s, k)
    case Notify(p) => Pop(NotifyParent(s, p, r))
  }

  /** A coroutine body ends: its local tasks are destroyed, then `FinalAwaiter` runs. */
  function FinishTop(s: State): State
    requires s.stack != []
  {
    var r := Top(s);
    var s1 := DestroyKids(s, r);
    if r !in s1.frames then s1.(fault := true)
    else if s1.frames[r].detached then Pop(s1.(frames := s1.frames - {r}))
    else AfterFinish(SetPhase(s1, r, Done), r, s1.frames[r].link)
  }

  /** The rest of a combinator's `await_suspend` once the children it starts are started. */
  function DecideTop(s: State): State
    requires s.stack != [] && Top(s) in s.frames
  {
    var p := Top(s);
    match s.frames[p].comb
    case NoComb => s
    case All(kids, started, remaining, caller) =>
      if remaining > 1
      then Pop(SetPhase(SetComb(s, p, All(kids, started, remaining - 1, caller)), p, Suspended(OnCombinator)))
      else EndCombinator(s, p)
    case Any(kids, started, winner, stage, caller) =>
      if started < |kids| || stage == 2 || winner.Some? then EndCombinator(s, p)
      else Pop(SetPhase(SetComb(s, p, Any(kids, started, winner, 1, caller)), p, Suspended(OnCombinator)))
  }

  // ---------------------------------------------------------------------------
  // Steps
  // ---------------------------------------------------------------------------

  datatype Step =
    | Create                          // a coroutine function is called: a never-run frame
    | Start(x: Id, release: bool)     // Task::resume; with `release`, spawn
    | Await(c: Id)                    // co_await of an owned task
    | Suspend(p: Place, front: bool)  // an awaiter registers the handle and suspends
    | Yield
    | Wake(p: Place)                  // the first handle of a list or slot is posted
    | Clear(p: Place)                 // the destructor of a request or batch awaiter clears another's slot
    | Combine(kids: seq<Id>, any: bool)
    | StartKid
    | Decide
    | Finish
    | Cancel(x: Id)
    | Detach(x: Id)
    | Dispatch                        // process(): pop one handle and resume it

  /** Ordinary code of the coroutine on top of the stack is running. */
  predicate Executing(s: State) {
    s.stack != [] && Top(s) in s.frames && s.frames[Top(s)].comb.NoComb?
  }

  predicate OwnedByTop(s: State, x: Id) {
    Executing(s) && x in s.frames && s.frames[x].owner == Some(Top(s))
  }

  predicate Root(s: State, x: Id) {
    x in s.frames && s.frames[x].owner.None? && !s.frames[x].detached
  }

  /** What the API demands of its callers; everything else is left to the transitions. */
  predicate Enabled(s: State, step: Step) {
    match step
    case Create => s.stack == [] || Executing(s)
    case Start(x, release) =>
      (OwnedByTop(s, x) || (s.stack == [] && Root(s, x))) && s.frames[x].phase.NeverRun?
    case Await(c) => OwnedByTop(s, c)
    case Suspend(p, front) => Executing(s) && (p.WaitList? || PlaceOf(s, p) == [])
    case Yield => Executing(s)
    case Wake(p) => PlaceOf(s, p) != []
    case Clear(p) => !p.WaitList? && PlaceOf(s, p) != []
    case Combine(kids, any) =>
      && Executing(s) && kids != [] && (any ==> |kids| == 2)
      && (forall i :: 0 <= i < |kids| ==> OwnedByTop(s, kids[i]) && s.frames[kids[i]].phase.NeverRun?)
      && (forall i, j :: 0 <= i < j < |kids| ==> kids[i] != kids[j])
    case StartKid =>
      && s.stack != [] && Top(s) in s.frames
      && (match s.frames[Top(s)].comb
          case NoComb => false
          case All(kids, started, _, _) => started < |kids|
          case Any(kids, started, winner, _, _) => started < |kids| && (started == 0 || winner.None?))
    case Decide =>
      && s.stack != [] && Top(s) in s.frames
      && (match s.frames[Top(s)].comb
          case NoComb => false
          case All(kids, started, _, _) => started == |kids|
          case Any(kids, started, winner, _, _) => started == |kids| || (started != 0 && winner.Some?))
    case Finish => Executing(s)
    case Cancel(x) =>
      || OwnedByTop(s, x)
      || ((s.stack == [] || Executing(s)) && Root(s, x)
          && forall d :: d in Sub(s.frames, x) ==> !s.frames[d].phase.Running?)
    case Detach(x) =>
      || OwnedByTop(s, x)
      || ((s.stack == [] || Executing(s)) && Root(s, x) && !s.frames[x].phase.Running?)
    case Dispatch => s.stack == [] && s.ready != []
  }

  /** An awaited task was never started, has finished, or has no waker left. */
  predicate Orderly(s: State, step: Step)
    requires Enabled(s, step)
  {
    step.Await? ==>
      var ph := s.frames[step.c].phase;
      ph.NeverRun? || ph.Done? || ph == Suspended(Nowhere)
  }

  function Apply(s: State, step: Step): State
    requires Enabled(s, step)
  {
    match step
    case Create =>
      var owner := if s.stack == [] then None else Some(Top(s));
      s.(frames := s.frames[s.next := Frame(NeverRun, owner, false, NoLink, NoComb)], next := s.next + 1)
    case Start(x, release) =>
      var f := s.frames[x];
      var owner := if release then None else f.owner;
      s.(frames := s.frames[x := f.(phase := Running, owner := owner)], stack := s.stack + [Act(x, x)])
    case Await(c) => AwaitTask(s, c)
    case Suspend(p, front) =>
      var r := Top(s);
      var q := PlaceOf(s, p);
      Pop(SetPhase(s.(places := s.places[p := if front then [r] + q else q + [r]]), r, Suspended(At(p))))
    case Yield => Pop(Post(s, Top(s)))
    case Wake(p) =>
      var q := PlaceOf(s, p);
      Post(s.(places := s.places[p := q[1..]]), q[0])
    case Clear(p) =>
      var q := PlaceOf(s, p);
      SetPhase(s.(places := s.places[p := []]), q[0], Suspended(Nowhere))
    case Combine(kids, any) =>
      var r := Top(s);
      var c := if any then Any(kids, 0, None, 0, true) else All(kids, 0, |kids| + 1, true);
      var f := map h | h in s.frames :: if h in kids then s.frames[h].(link := Notify(r)) else s.frames[h];
      SetComb(s.(frames := f), r, c)
    case StartKid =>
      var p := Top(s);
      var c := s.frames[p].comb;
      var k := c.kids[c.started];
      var s1 := SetComb(s, p, c.(started := c.started + 1));
      if k in s.frames && s.frames[k].phase.NeverRun?
      then SetPhase(s1, k, Running).(stack := s.stack + [Act(k, k)])
      else s1.(fault := true)
    case Decide => DecideTop(s)
    case Finish => FinishTop(s)
    case Cancel(x) => DestroyFrame(s, x)
    case Detach(x) =>
      var f := s.frames[x];
      if f.phase.Done? || f.phase.NeverRun? then DestroyFrame(s, x)
      else s.(frames := s.frames[x := f.(detached := true, link := NoLink, owner := None)])
    case Dispatch =>
      var h := s.ready[0];
      var s1 := s.(ready := s.ready[1..]);
      if h in s.frames && s.frames[h].phase.Done? then s1
      else if h in s.frames && s.frames[h].phase.Suspended?
      then EndCombinator(SetPhase(s1, h, Running).(stack := [Act(h, h)]), h)
      else s1.(fault := true)
  }
}
