/** Every step of the coroutine system keeps the invariant of `OwnershipProofs`. */
module OwnershipSteps {
  import opened Prelude
  import opened Ownership
  import opened OwnershipProofs

  // ---------------------------------------------------------------------------
  // Lists and slots
  // ---------------------------------------------------------------------------

  function TakeHead(s: State, p: Place): State
    requires PlaceOf(s, p) != []
  {
    var q := PlaceOf(s, p);
    SetPhase(s.(places := s.places[p := q[1..]]), q[0], Suspended(Nowhere))
  }

  lemma TakeHeadPlaces(s: State, p: Place)
    requires PlaceInv(s) && PlaceOf(s, p) != []
    ensures PlaceInv(TakeHead(s, p)) && Rephased(s.frames, TakeHead(s, p).frames, PlaceOf(s, p)[0])
    ensures s.frames[PlaceOf(s, p)[0]].phase == Suspended(At(p))
  {
    var q, t := PlaceOf(s, p), TakeHead(s, p);
    var h := q[0];
    assert p in s.places && h in s.places[p];
    assert h !in q[1..];
    forall p', h' | p' in t.places && h' in t.places[p']
      ensures h' in t.frames && t.frames[h'].phase == Suspended(At(p'))
    {
      assert h' in s.places[p'];
    }
    forall h' | h' in t.frames && t.frames[h'].phase.Suspended? && t.frames[h'].phase.at.At?
      ensures h' in PlaceOf(t, t.frames[h'].phase.at.p)
    {
      assert h' in PlaceOf(s, s.frames[h'].phase.at.p);
      assert h' != h;
    }
  }

  lemma TakeHeadInv(s: State, p: Place)
    requires Inv(s) && PlaceOf(s, p) != []
    ensures Inv(TakeHead(s, p))
  {
    var h, t := PlaceOf(s, p)[0], TakeHead(s, p);
    TakeHeadPlaces(s, p);
    RephasedTree(s, t, h);
    RephasedLinks(s, t, h);
    RephasedReady(s, t, h);
    StackSame(s, t, |s.stack|);
    assert CombOk(s.frames, h);
    RephasedCombs(s.frames, t.frames, h);
  }

  function Insert(s: State, h: Id, p: Place, front: bool): State {
    var q := PlaceOf(s, p);
    SetPhase(s.(places := s.places[p := if front then [h] + q else q + [h]]), h, Suspended(At(p)))
  }

  lemma InsertPlaces(s: State, h: Id, p: Place, front: bool)
    requires PlaceInv(s) && h in s.frames && s.frames[h].phase == Suspended(Nowhere)
    requires p.WaitList? || PlaceOf(s, p) == []
    ensures PlaceInv(Insert(s, h, p, front))
  {
    var t := Insert(s, h, p, front);
    assert h !in PlaceOf(s, p);
    forall p', h' | p' in t.places && h' in t.places[p']
      ensures h' in t.frames && t.frames[h'].phase == Suspended(At(p'))
    {
      if h' != h {
        assert h' in PlaceOf(s, p');
      }
    }
    forall h' | h' in t.frames && t.frames[h'].phase.Suspended? && t.frames[h'].phase.at.At?
      ensures h' in PlaceOf(t, t.frames[h'].phase.at.p)
    {
      if h' != h {
        assert h' in PlaceOf(s, s.frames[h'].phase.at.p);
      }
    }
  }

  lemma InsertInv(s: State, h: Id, p: Place, front: bool)
    requires Inv(s) && h in s.frames && s.frames[h].phase == Suspended(Nowhere) && s.frames[h].comb.NoComb?
    requires p.WaitList? || PlaceOf(s, p) == []
    ensures Inv(Insert(s, h, p, front))
  {
    var t := Insert(s, h, p, front);
    InsertPlaces(s, h, p, front);
    assert Rephased(s.frames, t.frames, h);
    RephasedTree(s, t, h);
    RephasedLinks(s, t, h);
    RephasedReady(s, t, h);
    StackSame(s, t, |s.stack|);
    RephasedCombs(s.frames, t.frames, h);
  }

  // The composite steps are sequences of the elementary moves.

  lemma SuspendIs(s: State, p: Place, front: bool)
    requires Enabled(s, Suspend(p, front))
    ensures Apply(s, Suspend(p, front)) == Insert(LeaveTop(s, Nowhere), Top(s), p, front)
  {
  }

  lemma YieldIs(s: State)
    requires Enabled(s, Yield)
    ensures Apply(s, Yield) == Post(LeaveTop(s, Nowhere), Top(s))
  {
  }

  lemma WakeIs(s: State, p: Place)
    requires Enabled(s, Wake(p))
    ensures Apply(s, Wake(p)) == Post(TakeHead(s, p), PlaceOf(s, p)[0])
  {
    var h := PlaceOf(s, p)[0];
    if h in s.frames {
      assert forall w, v ::
        s.frames[h := s.frames[h].(phase := w)][h := s.frames[h].(phase := v)]
        == s.frames[h := s.frames[h].(phase := v)];
    }
  }

  lemma LeftBehind(s: State)
    requires Executing(s)
    ensures var t := LeaveTop(s, Nowhere);
      && Top(s) in t.frames && t.frames[Top(s)] == s.frames[Top(s)].(phase := Suspended(Nowhere))
      && t.places == s.places
  {
  }

  lemma SuspendKeeps(s: State, p: Place, front: bool)
    requires Inv(s) && Enabled(s, Suspend(p, front))
    ensures Inv(Apply(s, Suspend(p, front)))
  {
    SuspendIs(s, p, front);
    LeftBehind(s);
    LeaveInv(s);
    InsertInv(LeaveTop(s, Nowhere), Top(s), p, front);
  }

  lemma YieldKeeps(s: State)
    requires Inv(s) && Enabled(s, Yield)
    ensures Inv(Apply(s, Yield))
  {
    YieldIs(s);
    LeftBehind(s);
    LeaveInv(s);
    PostInv(LeaveTop(s, Nowhere), Top(s));
  }

  lemma WakeKeeps(s: State, p: Place)
    requires Inv(s) && Enabled(s, Wake(p))
    ensures Inv(Apply(s, Wake(p)))
  {
    WakeIs(s, p);
    TakeHeadPlaces(s, p);
    TakeHeadInv(s, p);
    PostInv(TakeHead(s, p), PlaceOf(s, p)[0]);
  }

  lemma ClearKeeps(s: State, p: Place)
    requires Inv(s) && Enabled(s, Clear(p))
    ensures Inv(Apply(s, Clear(p)))
  {
    TakeHeadInv(s, p);
    assert PlaceOf(s, p)[1..] == [];
    assert Apply(s, Clear(p)) == TakeHead(s, p);
  }

  // ---------------------------------------------------------------------------
  // Creating and starting
  // ---------------------------------------------------------------------------

  lemma CreateWaits(s: State)
    requires ReadyInv(s) && PlaceInv(s) && TreeInv(s) && Enabled(s, Create)
    ensures ReadyInv(Apply(s, Create)) && PlaceInv(Apply(s, Create))
  {
  }

  lemma CreateTree(s: State)
    requires TreeInv(s) && Enabled(s, Create) && (s.stack != [] ==> s.frames[Top(s)].phase.Running?)
    ensures TreeInv(Apply(s, Create))
  {
  }

  lemma CreateLinks(s: State)
    requires LinkInv(s) && TreeInv(s) && Enabled(s, Create)
    ensures LinkInv(Apply(s, Create))
  {
    assert s.next !in s.frames;
  }

  lemma CreateStack(s: State)
    requires StackInv(s) && TreeInv(s) && Enabled(s, Create)
    ensures StackInv(Apply(s, Create))
  {
    var t := Apply(s, Create);
    forall j | 0 < j < |t.stack|
      ensures Under(t.frames, t.stack[j].cur, t.stack[j].base)
    {
      UnderSame(s.frames, t.frames, t.stack[j].cur, t.stack[j].base);
    }
  }

  lemma CreateKeeps(s: State)
    requires Inv(s) && Enabled(s, Create)
    ensures Inv(Apply(s, Create))
  {
    CreateWaits(s);
    CreateTree(s);
    CreateLinks(s);
    CreateStack(s);
    assert s.next !in s.frames;
    forall q | q in s.frames
      ensures CombOk(Apply(s, Create).frames, q)
    {
      assert CombOk(s.frames, q);
      CombFrame(s.frames, Apply(s, Create).frames, q);
    }
  }

  /** A never-run frame belongs to no combinator unless it says so. */
  lemma LoneKid(s: State, x: Id, q: Id)
    requires q in s.frames && CombOk(s.frames, q) && x in s.frames && !s.frames[x].link.Notify?
    ensures !s.frames[q].comb.NoComb? ==> x !in s.frames[q].comb.kids
  {
  }

  /** An owned never-run task of executing code is linked to nobody. */
  lemma NotLinked(s: State, x: Id)
    requires Inv(s) && x in s.frames && s.frames[x].phase.NeverRun?
    requires OwnedByTop(s, x) || s.frames[x].owner.None?
    ensures s.frames[x].link.NoLink? && s.frames[x].comb.NoComb?
  {
  }

  /** The change a nested resume of the never-run frame `x` makes. */
  ghost predicate Entered(s: State, t: State, x: Id) {
    && x in s.frames && x in t.frames && t.frames.Keys == s.frames.Keys
    && s.frames[x].phase.NeverRun? && t.frames[x].phase.Running?
    && (forall h :: h in s.frames && h != x ==>
          && t.frames[h].owner == s.frames[h].owner && t.frames[h].link == s.frames[h].link
          && t.frames[h].phase == s.frames[h].phase)
  }

  lemma PushOrder(s: State, x: Id)
    requires StackInv(s) && (s.stack != [] ==> Top(s) < x)
    ensures StackOrder(s.stack + [Act(x, x)])
    ensures forall i :: 0 <= i < |s.stack| ==> s.stack[i].cur < x
  {
    var n := |s.stack|;
    forall i | 0 <= i < n
      ensures s.stack[i].cur < x
    {
      if i < n - 1 {
        StackDistinct(s, i, n - 1);
      }
    }
  }

  lemma PushNests(s: State, t: State, x: Id)
    requires StackInv(s) && Entered(s, t, x) && !t.frames[x].link.Continue?
    requires forall i :: 0 <= i < |s.stack| ==> s.stack[i].cur < x
    ensures StackNests(t.frames, s.stack + [Act(x, x)])
  {
    assert Under(t.frames, x, x);
    forall j | 0 < j < |s.stack|
      ensures Under(t.frames, s.stack[j].cur, s.stack[j].base) && s.stack[j].base < x
    {
      UnderBounds(s.frames, s.stack[j].cur, s.stack[j].base);
      UnderSame(s.frames, t.frames, s.stack[j].cur, s.stack[j].base);
    }
  }

  /** A never-run frame younger than everything on the stack is entered by a nested resume. */
  lemma PushStack(s: State, t: State, x: Id)
    requires StackInv(s) && Entered(s, t, x) && !t.frames[x].link.Continue?
    requires t.stack == s.stack + [Act(x, x)] && (s.stack != [] ==> Top(s) < x)
    ensures StackInv(t)
  {
    PushOrder(s, x);
    PushNests(s, t, x);
    var n := |s.stack|;
    assert t.stack[n].cur == x;
    forall h | h in t.frames && t.frames[h].phase.Running?
      ensures OnStack(t.stack, h)
    {
      if h != x {
        var i :| 0 <= i < n && s.stack[i].cur == h;
        assert t.stack[i].cur == h;
      }
    }
  }

  lemma StartLinks(s: State, x: Id, release: bool)
    requires TreeInv(s) && LinkInv(s) && Enabled(s, Start(x, release)) && s.frames[x].link.NoLink?
    ensures TreeInv(Apply(s, Start(x, release))) && LinkInv(Apply(s, Start(x, release)))
  {
  }

  lemma StartWaits(s: State, x: Id, release: bool)
    requires ReadyInv(s) && PlaceInv(s) && Enabled(s, Start(x, release))
    ensures ReadyInv(Apply(s, Start(x, release))) && PlaceInv(Apply(s, Start(x, release)))
  {
  }

  lemma StartCombs(s: State, x: Id, release: bool)
    requires CombInv(s.frames, None) && Enabled(s, Start(x, release))
    requires s.frames[x].link.NoLink? && s.frames[x].comb.NoComb?
    ensures CombInv(Apply(s, Start(x, release)).frames, None)
  {
    var t := Apply(s, Start(x, release));
    forall q | q in s.frames
      ensures CombOk(t.frames, q)
    {
      assert CombOk(s.frames, q);
      LoneKid(s, x, q);
      if q != x {
        CombFrame(s.frames, t.frames, q);
      }
    }
  }

  lemma StartKeeps(s: State, x: Id, release: bool)
    requires Inv(s) && Enabled(s, Start(x, release))
    ensures Inv(Apply(s, Start(x, release)))
  {
    NotLinked(s, x);
    PushStack(s, Apply(s, Start(x, release)), x);
    StartLinks(s, x, release);
    StartWaits(s, x, release);
    StartCombs(s, x, release);
  }

  // ---------------------------------------------------------------------------
  // Awaiting a task, and resuming the awaiting coroutine
  // ---------------------------------------------------------------------------

  /** Control moves from the coroutine on top of the stack to `k`. */
  ghost predicate Handed(s: State, t: State, k: Id) {
    && s.stack != [] && t.stack == SetTop(s, k).stack && t.frames.Keys == s.frames.Keys && k in s.frames
    && (forall h :: h in s.frames ==>
          t.frames[h].owner == s.frames[h].owner && (h != k ==> t.frames[h].link == s.frames[h].link))
    && (t.frames[k].link == s.frames[k].link || Top(s) < k)
    && (forall h :: h in s.frames ==>
          (t.frames[h].phase.Running? <==> (h == k || (h != Top(s) && s.frames[h].phase.Running?))))
  }

  lemma HandedRuns(s: State, t: State, k: Id)
    requires StackInv(s) && Handed(s, t, k)
    ensures StackRuns(t.frames, t.stack) && RunningOnStack(t.frames, t.stack)
  {
    var n := |s.stack| - 1;
    forall i | 0 <= i < n
      ensures s.stack[i].cur != Top(s)
    {
      StackDistinct(s, i, n);
    }
    assert t.stack[n].cur == k;
    forall h | h in t.frames && t.frames[h].phase.Running?
      ensures OnStack(t.stack, h)
    {
      if h != k {
        var i :| 0 <= i < |s.stack| && s.stack[i].cur == h;
        assert t.stack[i].cur == h;
      }
    }
  }

  lemma HandedNests(s: State, t: State, k: Id)
    requires StackInv(s) && Handed(s, t, k)
    requires |s.stack| > 1 ==> Under(s.frames, k, s.stack[|s.stack| - 1].base)
    ensures StackNests(t.frames, t.stack)
  {
    var n := |s.stack| - 1;
    forall j | 0 < j < |t.stack|
      ensures Under(t.frames, t.stack[j].cur, t.stack[j].base)
      ensures t.stack[j].base in t.frames && !t.frames[t.stack[j].base].link.Continue?
    {
      UnderBounds(s.frames, s.stack[j].cur, s.stack[j].base);
      if j < n {
        StackDistinct(s, j, n);
      }
      UnderSame(s.frames, t.frames, t.stack[j].cur, t.stack[j].base);
    }
  }

  lemma HandedStack(s: State, t: State, k: Id)
    requires StackInv(s) && Handed(s, t, k)
    requires |s.stack| > 1 ==> Under(s.frames, k, s.stack[|s.stack| - 1].base)
    ensures StackInv(t)
  {
    HandedRuns(s, t, k);
    HandedNests(s, t, k);
  }

  ghost predicate SameWaits(s: State, t: State) {
    t.ready == s.ready && t.places == s.places && t.next == s.next && t.fault == s.fault
  }

  /** A change of frames that moves no coroutine into or out of the ring, a list or a slot. */
  lemma WaitsKept(s: State, t: State)
    requires ReadyInv(s) && PlaceInv(s) && SameWaits(s, t) && t.frames.Keys == s.frames.Keys
    requires forall h :: h in s.frames && t.frames[h].phase != s.frames[h].phase ==>
      && (s.frames[h].phase.Suspended? ==> !s.frames[h].phase.at.At? && !s.frames[h].phase.at.InReady?)
      && (t.frames[h].phase.Suspended? ==> !t.frames[h].phase.at.At? && !t.frames[h].phase.at.InReady?)
    ensures ReadyInv(t) && PlaceInv(t)
  {
  }

  ghost predicate Awaited(s: State, t: State, r: Id, c: Id) {
    && r in s.frames && c in s.frames && r != c && SameWaits(s, t)
    && s.frames[r].phase.Running? && s.frames[r].comb.NoComb?
    && (s.frames[c].phase.NeverRun? || s.frames[c].phase == Suspended(Nowhere))
    && s.frames[c].link.NoLink? && s.frames[c].owner == Some(r)
    && t.frames == s.frames[r := s.frames[r].(phase := Suspended(OnChild(c)))]
                           [c := s.frames[c].(phase := Running, link := Continue(r))]
  }

  lemma AwaitedTree(s: State, t: State, r: Id, c: Id)
    requires TreeInv(s) && Awaited(s, t, r, c)
    ensures TreeInv(t)
  {
  }

  lemma AwaitedLinks(s: State, t: State, r: Id, c: Id)
    requires LinkInv(s) && Awaited(s, t, r, c)
    ensures LinkInv(t)
  {
    var f, g := s.frames, t.frames;
    assert ContinueInv(g);
    assert OnChildInv(g);
    assert FreshInv(g);
    assert NotifyInv(g);
  }

  lemma AwaitedCombs(s: State, t: State, r: Id, c: Id)
    requires CombInv(s.frames, None) && Awaited(s, t, r, c)
    ensures CombInv(t.frames, Some(c))
  {
    forall q | q in s.frames && q != c
      ensures CombOk(t.frames, q)
    {
      assert CombOk(s.frames, q);
      LoneKid(s, c, q);
      if q != r {
        CombFrame(s.frames, t.frames, q);
      }
    }
  }

  lemma TopRuns(s: State)
    requires StackInv(s) && s.stack != []
    ensures Top(s) in s.frames && s.frames[Top(s)].phase.Running?
  {
  }

  lemma AwaitShape(s: State, c: Id)
    requires Enabled(s, Await(c)) && (s.frames[c].phase.NeverRun? || s.frames[c].phase == Suspended(Nowhere))
    requires s.frames[c].link.NoLink? && s.frames[Top(s)].phase.Running? && Top(s) < c
    ensures Awaited(s, HandOver(s, c), Top(s), c) && HandOver(s, c).stack == SetTop(s, c).stack
  {
  }

  lemma AwaitedHands(s: State, t: State, c: Id)
    requires s.stack != [] && Awaited(s, t, Top(s), c) && t.stack == SetTop(s, c).stack && Top(s) < c
    ensures Handed(s, t, c)
  {
  }

  /** Control is with the awaited task, whose own combinator, if any, is about to end. */
  lemma AwaitedInv(s: State, t: State, c: Id)
    requires Inv(s) && s.stack != [] && Awaited(s, t, Top(s), c) && t.stack == SetTop(s, c).stack
    ensures InvBut(t, Some(c))
  {
    var r := Top(s);
    AwaitedTree(s, t, r, c);
    AwaitedLinks(s, t, r, c);
    AwaitedCombs(s, t, r, c);
    WaitsKept(s, t);
    AwaitedHands(s, t, c);
    HandedStack(s, t, c);
  }

  // ---------------------------------------------------------------------------
  // Combinators
  // ---------------------------------------------------------------------------

  lemma {:induction false} AllUnfinished(f: Frames, kids: seq<Id>)
    requires forall k :: k in kids ==> k in f && !f[k].phase.Done?
    ensures Unfinished(f, kids) == |kids|
  {
    if kids != [] {
      AllUnfinished(f, kids[1..]);
    }
  }

  /** `r` hooks its never-run tasks `kids` to a new combinator `c`. */
  ghost predicate Combined(s: State, t: State, r: Id, kids: seq<Id>, c: Comb) {
    && r in s.frames && SameWaits(s, t) && t.stack == s.stack && t.frames.Keys == s.frames.Keys
    && s.frames[r].phase.Running? && s.frames[r].comb.NoComb? && r !in kids
    && NoDups(kids) && !c.NoComb? && c.kids == kids
    && (forall k :: k in kids ==>
          && k in s.frames && s.frames[k].owner == Some(r) && s.frames[k].phase.NeverRun?
          && s.frames[k].link.NoLink? && s.frames[k].comb.NoComb?)
    && (forall h :: h in s.frames ==>
          t.frames[h] == if h == r then s.frames[r].(comb := c)
                         else if h in kids then s.frames[h].(link := Notify(r))
                         else s.frames[h])
  }

  lemma CombinedTree(s: State, t: State, r: Id, kids: seq<Id>, c: Comb)
    requires TreeInv(s) && Combined(s, t, r, kids, c)
    ensures TreeInv(t)
  {
  }

  lemma CombinedLinks(s: State, t: State, r: Id, kids: seq<Id>, c: Comb)
    requires LinkInv(s) && Combined(s, t, r, kids, c)
    ensures LinkInv(t)
  {
    assert ContinueInv(t.frames);
    assert OnChildInv(t.frames);
    assert FreshInv(t.frames);
    assert NotifyInv(t.frames);
  }

  lemma CombinedStack(s: State, t: State, r: Id, kids: seq<Id>, c: Comb)
    requires StackInv(s) && Combined(s, t, r, kids, c)
    ensures StackInv(t)
  {
    forall j | 0 < j < |s.stack|
      ensures Under(t.frames, s.stack[j].cur, s.stack[j].base)
    {
      UnderSame(s.frames, t.frames, s.stack[j].cur, s.stack[j].base);
    }
  }

  lemma CombinedCombs(s: State, t: State, r: Id, kids: seq<Id>, c: Comb)
    requires CombInv(s.frames, None) && Combined(s, t, r, kids, c)
    requires kids != [] && (c == All(kids, 0, |kids| + 1, true) || (c == Any(kids, 0, None, 0, true) && |kids| == 2))
    ensures CombInv(t.frames, None)
  {
    AllUnfinished(t.frames, kids);
    forall q | q in s.frames
      ensures CombOk(t.frames, q)
    {
      if q != r {
        assert CombOk(s.frames, q);
        forall k | k in kids
          ensures !s.frames[q].comb.NoComb? ==> k !in s.frames[q].comb.kids
        {
          LoneKid(s, k, q);
        }
        CombFrame(s.frames, t.frames, q);
      }
    }
  }

  lemma CombineShape(s: State, kids: seq<Id>, any: bool)
    requires Inv(s) && Enabled(s, Combine(kids, any))
    ensures Combined(s, Apply(s, Combine(kids, any)), Top(s), kids,
                     if any then Any(kids, 0, None, 0, true) else All(kids, 0, |kids| + 1, true))
  {
    forall k | k in kids
      ensures OwnedByTop(s, k) && s.frames[k].phase.NeverRun? && k != Top(s)
      ensures s.frames[k].link.NoLink? && s.frames[k].comb.NoComb?
    {
      var i :| 0 <= i < |kids| && kids[i] == k;
      assert OwnedByTop(s, kids[i]);
      NotLinked(s, k);
    }
  }

  lemma CombineKeeps(s: State, kids: seq<Id>, any: bool)
    requires Inv(s) && Enabled(s, Combine(kids, any))
    ensures Inv(Apply(s, Combine(kids, any)))
  {
    var r, t := Top(s), Apply(s, Combine(kids, any));
    var c := if any then Any(kids, 0, None, 0, true) else All(kids, 0, |kids| + 1, true);
    CombineShape(s, kids, any);
    CombinedTree(s, t, r, kids, c);
    CombinedLinks(s, t, r, kids, c);
    CombinedStack(s, t, r, kids, c);
    CombinedCombs(s, t, r, kids, c);
    WaitsKept(s, t);
  }

  /** The combinator in `p` starts its next child `k`. */
  ghost predicate KidStarted(s: State, t: State, p: Id, k: Id) {
    && p in s.frames && k in s.frames && SameWaits(s, t) && t.stack == s.stack + [Act(k, k)]
    && s.frames[p].phase.Running? && !s.frames[p].comb.NoComb? && s.frames[p].comb.started < |s.frames[p].comb.kids|
    && k == s.frames[p].comb.kids[s.frames[p].comb.started] && p < k
    && s.frames[k].phase.NeverRun? && s.frames[k].owner == Some(p) && s.frames[k].link == Notify(p)
    && t.frames == s.frames[p := s.frames[p].(comb := s.frames[p].comb.(started := s.frames[p].comb.started + 1))]
                           [k := s.frames[k].(phase := Running)]
  }

  lemma KidStartedTree(s: State, t: State, p: Id, k: Id)
    requires TreeInv(s) && KidStarted(s, t, p, k)
    ensures TreeInv(t)
  {
  }

  lemma KidStartedLinks(s: State, t: State, p: Id, k: Id)
    requires LinkInv(s) && KidStarted(s, t, p, k)
    ensures LinkInv(t)
  {
    assert ContinueInv(t.frames);
    assert OnChildInv(t.frames);
    assert FreshInv(t.frames);
    assert NotifyInv(t.frames);
  }

  lemma KidStartedParent(f: Frames, g: Frames, p: Id, k: Id)
    requires p in f && CombOk(f, p) && p in g && !f[p].comb.NoComb? && f[p].phase.Running? && p != k
    requires f[p].comb.started < |f[p].comb.kids| && k == f[p].comb.kids[f[p].comb.started]
    requires f[p].comb.Any? ==> f[p].comb.started == 0 || f[p].comb.winner.None?
    requires g == f[p := f[p].(comb := f[p].comb.(started := f[p].comb.started + 1))][k := f[k].(phase := Running)]
    requires p !in f[p].comb.kids
    ensures CombOk(g, p)
  {
    var c := f[p].comb;
    UnfinishedSame(f, g, c.kids);
    assert KidsOk(g, p, c.kids, c.started + 1);
  }

  lemma NotItsOwnKid(s: State, p: Id)
    requires TreeInv(s) && p in s.frames && CombOk(s.frames, p) && !s.frames[p].comb.NoComb?
    ensures p !in s.frames[p].comb.kids
  {
    forall i | 0 <= i < |s.frames[p].comb.kids|
      ensures s.frames[p].comb.kids[i] != p
    {
      assert s.frames[s.frames[p].comb.kids[i]].owner == Some(p);
    }
  }

  lemma KidStartedOther(s: State, t: State, p: Id, k: Id, q: Id)
    requires CombInv(s.frames, None) && KidStarted(s, t, p, k) && s.frames[k].comb.NoComb? && q in s.frames && q != p
    ensures CombOk(t.frames, q)
  {
    if q != k {
      OtherComb(s, q, p, k);
      CombFrame(s.frames, t.frames, q);
    }
  }

  lemma KidStartedCombs(s: State, t: State, p: Id, k: Id)
    requires CombInv(s.frames, None) && KidStarted(s, t, p, k) && s.frames[k].comb.NoComb? && TreeInv(s)
    requires s.frames[p].comb.Any? ==> s.frames[p].comb.started == 0 || s.frames[p].comb.winner.None?
    ensures CombInv(t.frames, None)
  {
    assert CombOk(s.frames, p);
    NotItsOwnKid(s, p);
    KidStartedParent(s.frames, t.frames, p, k);
    forall q | q in t.frames && q != p
      ensures CombOk(t.frames, q)
    {
      KidStartedOther(s, t, p, k, q);
    }
  }

  lemma OtherComb(s: State, q: Id, p: Id, k: Id)
    requires CombInv(s.frames, None) && q in s.frames && k in s.frames && s.frames[k].owner == Some(p) && q != p
    ensures CombOk(s.frames, q) && (!s.frames[q].comb.NoComb? ==> k !in s.frames[q].comb.kids)
  {
  }

  lemma StartKidShape(s: State)
    requires Inv(s) && Enabled(s, StartKid)
    ensures var k := s.frames[Top(s)].comb.kids[s.frames[Top(s)].comb.started];
      KidStarted(s, Apply(s, StartKid), Top(s), k) && s.frames[k].comb.NoComb?
  {
    var p := Top(s);
    var c := s.frames[p].comb;
    var k := c.kids[c.started];
    assert CombOk(s.frames, p);
    assert s.frames[k].owner == Some(p);
  }

  lemma StartKidKeeps(s: State)
    requires Inv(s) && Enabled(s, StartKid)
    ensures Inv(Apply(s, StartKid))
  {
    var k := s.frames[Top(s)].comb.kids[s.frames[Top(s)].comb.started];
    StartKidShape(s);
    KidStartedInv(s, Apply(s, StartKid), k);
  }

  lemma KidStartedStack(s: State, t: State, p: Id, k: Id)
    requires StackInv(s) && s.stack != [] && p == Top(s) && KidStarted(s, t, p, k)
    ensures StackInv(t)
  {
    assert Entered(s, t, k);
    PushStack(s, t, k);
  }

  lemma KidStartedWaits(s: State, t: State, p: Id, k: Id)
    requires ReadyInv(s) && PlaceInv(s) && KidStarted(s, t, p, k)
    ensures ReadyInv(t) && PlaceInv(t)
  {
    WaitsKept(s, t);
  }

  lemma KidStartedInv(s: State, t: State, k: Id)
    requires Inv(s) && s.stack != [] && KidStarted(s, t, Top(s), k) && s.frames[k].comb.NoComb?
    requires s.frames[Top(s)].comb.Any? ==> s.frames[Top(s)].comb.started == 0 || s.frames[Top(s)].comb.winner.None?
    ensures Inv(t)
  {
    KidStartedTree(s, t, Top(s), k);
    KidStartedLinks(s, t, Top(s), k);
    KidStartedCombs(s, t, Top(s), k);
    KidStartedWaits(s, t, Top(s), k);
    KidStartedStack(s, t, Top(s), k);
  }
}
