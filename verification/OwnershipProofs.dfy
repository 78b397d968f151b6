/** The invariant of the coroutine system, and the lemmas most steps need: subtrees, erasing a
    subtree from every place a handle can be in, posting, and changes of a single phase. */
module OwnershipProofs {
  import opened Prelude
  import opened Ownership

  // ---------------------------------------------------------------------------
  // Invariant
  // ---------------------------------------------------------------------------

  ghost predicate TreeInv(s: State) {
    && (forall h :: h in s.frames ==> h < s.next)
    && (forall h {:trigger s.frames[h].owner} :: h in s.frames && s.frames[h].owner.Some? ==>
          var p := s.frames[h].owner.value;
          p < h && p in s.frames && !s.frames[p].phase.Done? && !s.frames[p].phase.NeverRun?)
    && (forall h :: h in s.frames && s.frames[h].detached ==>
          var f := s.frames[h];
          f.owner.None? && f.link.NoLink? && (f.phase.Running? || f.phase.Suspended?))
  }

  ghost predicate ReadyInv(s: State) {
    && NoDups(s.ready)
    && forall h :: h in s.ready <==> h in s.frames && s.frames[h].phase == Suspended(InReady)
  }

  ghost predicate PlaceShape(s: State) {
    forall p :: p in s.places ==> NoDups(s.places[p]) && (p.WaitList? || |s.places[p]| <= 1)
  }

  ghost predicate PlaceHolds(s: State) {
    forall p, h :: p in s.places && h in s.places[p] ==> h in s.frames && s.frames[h].phase == Suspended(At(p))
  }

  ghost predicate PlaceFinds(s: State) {
    forall h :: h in s.frames && s.frames[h].phase.Suspended? && s.frames[h].phase.at.At? ==>
      h in PlaceOf(s, s.frames[h].phase.at.p)
  }

  ghost predicate PlaceInv(s: State) {
    PlaceShape(s) && PlaceHolds(s) && PlaceFinds(s)
  }

  ghost predicate StackRuns(f: Frames, q: seq<Act>) {
    forall i :: 0 <= i < |q| ==> q[i].cur in f && f[q[i].cur].phase.Running?
  }

  ghost predicate OnStack(q: seq<Act>, h: Id) {
    exists i :: 0 <= i < |q| && q[i].cur == h
  }

  ghost predicate RunningOnStack(f: Frames, q: seq<Act>) {
    forall h :: h in f && f[h].phase.Running? ==> OnStack(q, h)
  }

  ghost predicate StackOrder(q: seq<Act>) {
    forall i, j :: 0 <= i < j < |q| ==> q[i].cur < q[j].base
  }

  /** What a nested resume entered is an ancestor of what runs in it, and nobody awaits it. */
  ghost predicate StackNests(f: Frames, q: seq<Act>) {
    forall j :: 0 < j < |q| ==> Under(f, q[j].cur, q[j].base) && q[j].base in f && !f[q[j].base].link.Continue?
  }

  ghost predicate StackInv(s: State) {
    && StackRuns(s.frames, s.stack) && RunningOnStack(s.frames, s.stack)
    && StackOrder(s.stack) && StackNests(s.frames, s.stack)
  }

  ghost predicate ContinueInv(f: Frames) {
    forall c {:trigger f[c].link} :: c in f && !f[c].phase.Done? && f[c].link.Continue? ==>
      f[c].owner == Some(f[c].link.to) && f[c].link.to in f && f[f[c].link.to].phase == Suspended(OnChild(c))
  }

  ghost predicate OnChildInv(f: Frames) {
    forall h {:trigger f[h].phase} :: h in f && f[h].phase.Suspended? && f[h].phase.at.OnChild? ==>
      var c := f[h].phase.at.c;
      c in f && !f[c].phase.Done? && !f[c].phase.NeverRun? && f[c].link == Continue(h) && f[h].comb.NoComb?
  }

  ghost predicate FreshInv(f: Frames) {
    forall c {:trigger f[c].phase} :: c in f && f[c].phase.NeverRun? ==> !f[c].link.Continue? && f[c].comb.NoComb?
  }

  ghost predicate NotifyInv(f: Frames) {
    forall c {:trigger f[c].link} :: c in f && f[c].link.Notify? ==>
      && f[c].owner == Some(f[c].link.to) && f[c].link.to in f
      && !f[f[c].link.to].comb.NoComb? && c in f[f[c].link.to].comb.kids
  }

  ghost predicate LinkInv(s: State) {
    ContinueInv(s.frames) && OnChildInv(s.frames) && FreshInv(s.frames) && NotifyInv(s.frames)
  }

  function Unfinished(f: Frames, kids: seq<Id>): nat {
    if kids == [] then 0
    else (if kids[0] in f && f[kids[0]].phase.Done? then 0 else 1) + Unfinished(f, kids[1..])
  }

  ghost predicate KidsOk(f: Frames, p: Id, kids: seq<Id>, started: nat) {
    && NoDups(kids) && started <= |kids|
    && (forall i :: 0 <= i < |kids| ==>
          && kids[i] in f && f[kids[i]].owner == Some(p) && f[kids[i]].link == Notify(p)
          && (f[kids[i]].phase.NeverRun? <==> started <= i))
  }

  /** The combinator in frame `p` agrees with its children and with `p`'s own phase. */
  ghost predicate CombOk(f: Frames, p: Id)
    requires p in f
  {
    match f[p].comb
    case NoComb => f[p].phase != Suspended(OnCombinator)
    case All(kids, started, remaining, caller) =>
      && KidsOk(f, p, kids, started)
      && (match f[p].phase
         case Running => caller && remaining == Unfinished(f, kids) + 1
         case Suspended(OnCombinator) => caller && remaining == Unfinished(f, kids) > 0 && started == |kids|
         case Suspended(InReady) => !caller && remaining == 0 == Unfinished(f, kids)
         case Suspended(Nowhere) => !caller && remaining == 0 == Unfinished(f, kids)
         case _ => false)
    case Any(kids, started, winner, stage, caller) =>
      && KidsOk(f, p, kids, started) && |kids| == 2
      && (winner.Some? ==> winner.value in kids && f[winner.value].phase.Done?)
      && (winner.None? ==> forall i :: 0 <= i < |kids| ==> !f[kids[i]].phase.Done?)
      && (match f[p].phase
         case Running => caller && stage == (if winner.Some? then 2 else 0) && (started == 0 ==> winner.None?)
         case Suspended(OnCombinator) => caller && stage == 1 && winner.None? && started == 2
         case Suspended(InReady) => !caller && stage == 2 && winner.Some?
         case Suspended(Nowhere) => !caller && stage == 2 && winner.Some?
         case _ => false)
  }

  ghost predicate CombInv(f: Frames, but: Option<Id>) {
    forall p {:trigger CombOk(f, p)} :: p in f && Some(p) != but ==> CombOk(f, p)
  }

  /** Everything but the combinator state of `but`, whose awaiter may be ending. */
  ghost predicate InvBut(s: State, but: Option<Id>) {
    && TreeInv(s) && ReadyInv(s) && PlaceInv(s) && StackInv(s) && LinkInv(s) && !s.fault
    && CombInv(s.frames, but)
  }

  ghost predicate Inv(s: State) {
    InvBut(s, None)
  }

  // ---------------------------------------------------------------------------
  // Subtrees
  // ---------------------------------------------------------------------------

  lemma {:induction false} UnderBounds(f: Frames, d: Id, a: Id)
    requires Under(f, d, a)
    ensures a <= d && a in f
    decreases d
  {
    if d != a {
      UnderBounds(f, f[d].owner.value, a);
    }
  }

  lemma {:induction false} UnderTrans(f: Frames, d: Id, e: Id, a: Id)
    requires Under(f, d, e) && Under(f, e, a)
    ensures Under(f, d, a)
    decreases d
  {
    if d != e {
      UnderTrans(f, f[d].owner.value, e, a);
    }
  }

  /** Ownership chains are not changed by updates that keep owners up to `d`. */
  lemma {:induction false} UnderSame(f: Frames, g: Frames, d: Id, a: Id)
    requires forall h :: h <= d ==> ((h in f) <==> (h in g))
    requires forall h :: h in f && h in g && h <= d ==> f[h].owner == g[h].owner
    ensures Under(f, d, a) == Under(g, d, a)
    decreases d
  {
    if d in f && d != a && f[d].owner.Some? && f[d].owner.value < d {
      UnderSame(f, g, f[d].owner.value, a);
    }
  }

  ghost predicate Closed(f: Frames, gone: set<Id>) {
    forall d :: d in f && f[d].owner.Some? && f[d].owner.value in gone ==> d in gone
  }

  /** Removing a set that is closed under ownership keeps the chains of the survivors. */
  lemma {:induction false} UnderErased(f: Frames, gone: set<Id>, d: Id, a: Id)
    requires Closed(f, gone) && d !in gone
    ensures Under(f - gone, d, a) == Under(f, d, a)
    decreases d
  {
    if d in f && d != a && f[d].owner.Some? && f[d].owner.value < d {
      UnderErased(f, gone, f[d].owner.value, a);
    }
  }

  lemma SubClosed(f: Frames, x: Id)
    requires forall h :: h in f && f[h].owner.Some? ==> f[h].owner.value < h
    ensures Closed(f, Sub(f, x)) && Closed(f, Sub(f, x) - {x})
  {
    forall d | d in f && f[d].owner.Some? && f[d].owner.value in Sub(f, x)
      ensures d in Sub(f, x) && d != x
    {
      UnderBounds(f, f[d].owner.value, x);
    }
  }

  // ---------------------------------------------------------------------------
  // The recursive destructor erases the owned subtree
  // ---------------------------------------------------------------------------

  function Erase(s: State, gone: set<Id>): State {
    s.(frames := s.frames - gone, ready := Without(s.ready, gone),
       places := map p | p in s.places :: Without(s.places[p], gone))
  }

  /** The part of the invariant a destructor relies on. */
  ghost predicate HandleInv(s: State) {
    && (forall h :: h in s.frames ==> h < s.next)
    && (forall h :: h in s.frames && s.frames[h].owner.Some? ==> s.frames[h].owner.value < h)
    && (forall p, h :: p in s.places && h in s.places[p] ==> h in s.frames && s.frames[h].phase == Suspended(At(p)))
    && (forall h :: h in s.ready ==> h in s.frames)
  }

  ghost predicate NoneRunning(s: State, ids: set<Id>) {
    forall d :: d in ids && d in s.frames ==> !s.frames[d].phase.Running?
  }

  lemma EraseHandles(s: State, gone: set<Id>)
    requires HandleInv(s)
    ensures HandleInv(Erase(s, gone))
  {
  }

  lemma EraseTwice(s: State, a: set<Id>, b: set<Id>)
    ensures Erase(Erase(s, a), b) == Erase(s, a + b)
  {
    WithoutTwice(s.ready, a, b);
    var l, r := Erase(Erase(s, a), b).places, Erase(s, a + b).places;
    assert l.Keys == r.Keys;
    forall p | p in l
      ensures l[p] == r[p]
    {
      WithoutTwice(s.places[p], a, b);
    }
    assert l == r;
    assert (s.frames - a) - b == s.frames - (a + b);
  }

  /** Withdrawing a handle from the place it waits at withdraws it everywhere. */
  lemma WithdrawnEverywhere(s: State, x: Id, p: Place)
    requires HandleInv(s) && x in s.frames && p in s.places
    ensures Without(s.places[p], {x}) ==
      if s.frames[x].phase == Suspended(At(p)) then Without(s.places[p], {x}) else s.places[p]
  {
    if s.frames[x].phase != Suspended(At(p)) {
      assert x !in s.places[p];
      WithoutAbsent(s.places[p], {x});
    }
  }

  lemma FreePlaces(s: State, x: Id)
    requires HandleInv(s) && x in s.frames
    ensures Free(s, x).places == Erase(s, {x}).places
  {
    var l, r := Free(s, x).places, Erase(s, {x}).places;
    assert l.Keys == s.places.Keys == r.Keys;
    forall p | p in s.places
      ensures l[p] == r[p]
    {
      WithdrawnEverywhere(s, x, p);
    }
  }

  lemma FreeErases(s: State, x: Id)
    requires HandleInv(s) && x in s.frames && !s.frames[x].phase.Running?
    ensures Free(s, x) == Erase(s, {x})
  {
    FreePlaces(s, x);
  }

  /** A frame that owns no frame is alone in its subtree. */
  lemma Childless(s: State, x: Id)
    requires x in s.frames && Kids(s.frames, x) == {}
    ensures Sub(s.frames, x) == {x} && Erase(s, {}) == s
  {
    assert Under(s.frames, x, x);
    forall d | d in Sub(s.frames, x)
      ensures d == x
    {
      if d != x {
        OnlyKids(s.frames, d, x);
      }
    }
    EraseNothing(s);
  }

  lemma EraseNothing(s: State)
    ensures Erase(s, {}) == s
  {
    WithoutAbsent(s.ready, {});
    forall p | p in s.places
      ensures Without(s.places[p], {}) == s.places[p]
    {
      WithoutAbsent(s.places[p], {});
    }
    assert Erase(s, {}).places == s.places;
  }

  lemma {:induction false} DestroyKidsErases(s: State, x: Id)
    requires HandleInv(s) && x in s.frames && NoneRunning(s, Sub(s.frames, x) - {x})
    ensures DestroyKids(s, x) == Erase(s, Sub(s.frames, x) - {x})
    decreases |s.frames.Keys|, s.next - x
  {
    var f := s.frames;
    var ks := set d | d in Kids(f, x) && x < d < s.next;
    if ks == {} {
      assert forall d :: d in Kids(f, x) ==> d in ks;
      Childless(s, x);
      assert Sub(f, x) - {x} == {};
    } else {
      var k := Youngest(ks);
      RestErased(s, x, k);
      DestroyKidsErases(s, k);
      FirstKidErased(s, k);
      DestroyKidsErases(Erase(s, Sub(f, k)), x);
    }
  }

  /** What is left of `x`'s subtree once its child `k` and everything below are erased. */
  lemma RestErased(s: State, x: Id, k: Id)
    requires HandleInv(s) && x in s.frames && NoneRunning(s, Sub(s.frames, x) - {x})
    requires k in Kids(s.frames, x) && x < k
    ensures NoneRunning(s, Sub(s.frames, k))
    ensures var t := Erase(s, Sub(s.frames, k));
      && HandleInv(t) && x in t.frames && NoneRunning(t, Sub(t.frames, x) - {x})
      && |t.frames.Keys| < |s.frames.Keys|
      && Erase(t, Sub(t.frames, x) - {x}) == Erase(s, Sub(s.frames, x) - {x})
  {
    var f := s.frames;
    var below := Sub(f, k);
    var t := Erase(s, below);
    BelowKid(f, x, k);
    EraseHandles(s, below);
    SubClosed(f, k);
    SubAfterErase(f, below, x);
    SubsetSmaller(t.frames.Keys, f.Keys, k);
    EraseTwice(s, below, Sub(t.frames, x) - {x});
    assert below + (Sub(t.frames, x) - {x}) == Sub(f, x) - {x};
  }

  lemma BelowKid(f: Frames, x: Id, k: Id)
    requires x in f && k in Kids(f, x) && x < k
    ensures Sub(f, k) <= Sub(f, x) - {x} && k in Sub(f, k)
  {
    assert Under(f, x, x);
    assert Under(f, k, x);
    forall d | d in Sub(f, k)
      ensures d in Sub(f, x) && d != x
    {
      UnderTrans(f, d, k, x);
      UnderBounds(f, d, k);
    }
  }

  /** Destroying one child's frame, its own children first, erases that child's subtree. */
  lemma FirstKidErased(s: State, k: Id)
    requires HandleInv(s) && k in s.frames && NoneRunning(s, Sub(s.frames, k))
    requires DestroyKids(s, k) == Erase(s, Sub(s.frames, k) - {k})
    ensures Free(DestroyKids(s, k), k) == Erase(s, Sub(s.frames, k))
  {
    var below := Sub(s.frames, k);
    assert Under(s.frames, k, k);
    EraseHandles(s, below - {k});
    FreeErases(DestroyKids(s, k), k);
    EraseTwice(s, below - {k}, {k});
    assert (below - {k}) + {k} == below;
  }

  lemma {:induction false} OnlyKids(f: Frames, d: Id, x: Id)
    requires Under(f, d, x) && d != x
    ensures exists k :: k in Kids(f, x) && x < k <= d
    decreases d
  {
    var e := f[d].owner.value;
    if e == x {
      assert d in Kids(f, x);
    } else {
      OnlyKids(f, e, x);
    }
  }

  lemma SubAfterErase(f: Frames, gone: set<Id>, x: Id)
    requires Closed(f, gone)
    ensures Sub(f - gone, x) == Sub(f, x) - gone
  {
    forall d | d in f && d !in gone
      ensures Under(f - gone, d, x) == Under(f, d, x)
    {
      UnderErased(f, gone, d, x);
    }
  }

  /** Cancelling `x` erases its whole owned subtree, and nothing else, from the frames, the
      ready ring and every list and slot. */
  lemma DestroyFrameErases(s: State, x: Id)
    requires HandleInv(s) && x in s.frames && NoneRunning(s, Sub(s.frames, x))
    ensures DestroyFrame(s, x) == Erase(s, Sub(s.frames, x))
  {
    var below := Sub(s.frames, x) - {x};
    DestroyKidsErases(s, x);
    EraseHandles(s, below);
    FreeErases(Erase(s, below), x);
    EraseTwice(s, below, {x});
    assert below + {x} == Sub(s.frames, x);
  }

  // ---------------------------------------------------------------------------
  // Erasing a subtree keeps the invariant
  // ---------------------------------------------------------------------------

  lemma {:induction false} UnfinishedSame(f: Frames, g: Frames, kids: seq<Id>)
    requires forall k :: k in kids ==> k in f && k in g && (f[k].phase.Done? <==> g[k].phase.Done?)
    ensures Unfinished(f, kids) == Unfinished(g, kids)
  {
    if kids != [] {
      UnfinishedSame(f, g, kids[1..]);
    }
  }

  /** Every task cut off from a surviving owner was owned by `p`, which is running. */
  ghost predicate Severs(s: State, gone: set<Id>, p: Option<Id>) {
    && Closed(s.frames, gone) && NoneRunning(s, gone)
    && (forall d :: d in gone && d in s.frames && s.frames[d].owner.Some? && s.frames[d].owner.value !in gone ==>
          s.frames[d].owner == p)
    && (p.Some? ==>
          && p.value in s.frames && p.value !in gone && s.frames[p.value].phase.Running?
          && (!s.frames[p.value].comb.NoComb? ==> forall k :: k in s.frames[p.value].comb.kids ==> k in gone))
  }

  function EraseAndEnd(s: State, gone: set<Id>, p: Option<Id>): State {
    if p.Some? then SetComb(Erase(s, gone), p.value, NoComb) else Erase(s, gone)
  }

  lemma EraseReady(s: State, gone: set<Id>, p: Option<Id>)
    requires ReadyInv(s)
    ensures ReadyInv(EraseAndEnd(s, gone, p))
  {
    WithoutNoDups(s.ready, gone);
    SamePhases(s, gone, p);
    var t := EraseAndEnd(s, gone, p);
    assert t.ready == Without(s.ready, gone);
  }

  lemma ErasePlaces(s: State, gone: set<Id>, p: Option<Id>)
    requires PlaceInv(s)
    ensures PlaceInv(EraseAndEnd(s, gone, p))
  {
    var t := EraseAndEnd(s, gone, p);
    SamePhases(s, gone, p);
    forall q | q in t.places
      ensures NoDups(t.places[q]) && (q.WaitList? || |t.places[q]| <= 1)
    {
      WithoutNoDups(s.places[q], gone);
    }
    assert PlaceHolds(t) by {
      ErasePlaceHolds(s, gone, p);
    }
    forall h | h in t.frames && t.frames[h].phase.Suspended? && t.frames[h].phase.at.At?
      ensures h in PlaceOf(t, t.frames[h].phase.at.p)
    {
      assert h in PlaceOf(s, s.frames[h].phase.at.p);
    }
  }

  lemma ErasePlaceHolds(s: State, gone: set<Id>, p: Option<Id>)
    requires PlaceHolds(s)
    ensures PlaceHolds(EraseAndEnd(s, gone, p))
  {
    var t := EraseAndEnd(s, gone, p);
    SamePhases(s, gone, p);
    forall q, h | q in t.places && h in t.places[q]
      ensures h in t.frames && t.frames[h].phase == Suspended(At(q))
    {
      assert h in s.places[q];
    }
  }

  lemma SamePhases(s: State, gone: set<Id>, p: Option<Id>)
    ensures var t := EraseAndEnd(s, gone, p);
      && t.frames.Keys == s.frames.Keys - gone && t.places.Keys == s.places.Keys
      && (forall q :: q in s.places ==> t.places[q] == Without(s.places[q], gone))
      && (forall h :: h in t.frames ==> t.frames[h] == s.frames[h].(comb := t.frames[h].comb))
      && (forall h :: h in t.frames && Some(h) != p ==> t.frames[h] == s.frames[h])
  {
  }

  lemma EraseStack(s: State, gone: set<Id>, p: Option<Id>)
    requires StackInv(s) && Severs(s, gone, p)
    ensures StackInv(EraseAndEnd(s, gone, p))
  {
    var t := EraseAndEnd(s, gone, p);
    SamePhases(s, gone, p);
    assert t.stack == s.stack;
    forall j | 0 < j < |s.stack|
      ensures Under(t.frames, s.stack[j].cur, s.stack[j].base) && s.stack[j].base in t.frames
    {
      var f := s.frames - gone;
      UnderErased(s.frames, gone, s.stack[j].cur, s.stack[j].base);
      UnderSame(f, t.frames, s.stack[j].cur, s.stack[j].base);
      UnderBounds(t.frames, s.stack[j].cur, s.stack[j].base);
    }
  }

  lemma EraseTree(s: State, gone: set<Id>, p: Option<Id>)
    requires TreeInv(s) && Severs(s, gone, p)
    ensures TreeInv(EraseAndEnd(s, gone, p))
  {
    SamePhases(s, gone, p);
  }

  lemma EraseLinks(s: State, gone: set<Id>, p: Option<Id>)
    requires TreeInv(s) && LinkInv(s) && Severs(s, gone, p)
    ensures LinkInv(EraseAndEnd(s, gone, p))
  {
    SamePhases(s, gone, p);
    EraseAwaiting(s, gone, p);
    EraseNotified(s, gone, p);
  }

  lemma EraseAwaiting(s: State, gone: set<Id>, p: Option<Id>)
    requires LinkInv(s) && Severs(s, gone, p)
    ensures ContinueInv(EraseAndEnd(s, gone, p).frames) && OnChildInv(EraseAndEnd(s, gone, p).frames)
  {
    SamePhases(s, gone, p);
    var t := EraseAndEnd(s, gone, p);
    forall h | h in t.frames && t.frames[h].phase.Suspended? && t.frames[h].phase.at.OnChild?
      ensures t.frames[h].phase.at.c in t.frames
    {
      var c := s.frames[h].phase.at.c;
      assert s.frames[c].owner == Some(h);
    }
  }

  lemma EraseNotified(s: State, gone: set<Id>, p: Option<Id>)
    requires LinkInv(s) && Severs(s, gone, p)
    ensures NotifyInv(EraseAndEnd(s, gone, p).frames)
  {
    SamePhases(s, gone, p);
  }

  lemma EraseComb(s: State, gone: set<Id>, p: Option<Id>, q: Id)
    requires Severs(s, gone, p) && q in s.frames && q !in gone && CombOk(s.frames, q) && Some(q) != p
    ensures CombOk(EraseAndEnd(s, gone, p).frames, q)
  {
    SamePhases(s, gone, p);
    var t := EraseAndEnd(s, gone, p);
    if !s.frames[q].comb.NoComb? {
      var kids := s.frames[q].comb.kids;
      forall i | 0 <= i < |kids|
        ensures kids[i] in t.frames && t.frames[kids[i]].(comb := NoComb) == s.frames[kids[i]].(comb := NoComb)
      {
        assert s.frames[kids[i]].owner == Some(q);
      }
      UnfinishedSame(s.frames, t.frames, kids);
    }
  }

  lemma EraseInv(s: State, gone: set<Id>, p: Option<Id>)
    requires InvBut(s, p) && Severs(s, gone, p)
    ensures Inv(EraseAndEnd(s, gone, p))
  {
    EraseReady(s, gone, p);
    ErasePlaces(s, gone, p);
    EraseStack(s, gone, p);
    EraseTree(s, gone, p);
    EraseLinks(s, gone, p);
    SamePhases(s, gone, p);
    forall q | q in s.frames && q !in gone && Some(q) != p
      ensures CombOk(EraseAndEnd(s, gone, p).frames, q)
    {
      EraseComb(s, gone, p, q);
    }
  }

  // ---------------------------------------------------------------------------
  // The elementary moves of a handle keep the invariant
  // ---------------------------------------------------------------------------

  /** A combinator is unaffected by updates that keep its frame and what it sees of its children. */
  lemma CombFrame(f: Frames, g: Frames, q: Id)
    requires q in f && q in g && g[q].comb == f[q].comb && CombOk(f, q)
    requires g[q].phase == f[q].phase
    requires !f[q].comb.NoComb? ==> forall k :: k in f[q].comb.kids ==>
      && k in g && g[k].owner == f[k].owner && g[k].link == f[k].link
      && (g[k].phase.Done? <==> f[k].phase.Done?) && (g[k].phase.NeverRun? <==> f[k].phase.NeverRun?)
    ensures CombOk(g, q)
  {
    if !f[q].comb.NoComb? {
      UnfinishedSame(f, g, f[q].comb.kids);
    }
  }

  /** Frames differ only in the phase of `h`, which has started and not finished in both. */
  ghost predicate Rephased(f: Frames, g: Frames, h: Id) {
    && h in f && h in g && g == f[h := f[h].(phase := g[h].phase)]
    && (f[h].phase.Running? || f[h].phase.Suspended?) && (g[h].phase.Running? || g[h].phase.Suspended?)
  }

  lemma RephasedTree(s: State, t: State, h: Id)
    requires TreeInv(s) && Rephased(s.frames, t.frames, h) && t.next == s.next
    ensures TreeInv(t)
  {
  }

  lemma RephasedLinks(s: State, t: State, h: Id)
    requires LinkInv(s) && Rephased(s.frames, t.frames, h)
    requires s.frames[h].phase.Suspended? ==> !s.frames[h].phase.at.OnChild?
    requires t.frames[h].phase.Suspended? ==> !t.frames[h].phase.at.OnChild?
    ensures LinkInv(t)
  {
  }

  lemma RephasedReady(s: State, t: State, h: Id)
    requires ReadyInv(s) && Rephased(s.frames, t.frames, h) && t.ready == s.ready
    requires s.frames[h].phase != Suspended(InReady) && t.frames[h].phase != Suspended(InReady)
    ensures ReadyInv(t)
  {
  }

  lemma RephasedPlaces(s: State, t: State, h: Id)
    requires PlaceInv(s) && Rephased(s.frames, t.frames, h) && t.places == s.places
    requires s.frames[h].phase.Suspended? ==> !s.frames[h].phase.at.At?
    requires t.frames[h].phase.Suspended? ==> !t.frames[h].phase.at.At?
    ensures PlaceInv(t)
  {
  }

  lemma RephasedOthers(f: Frames, g: Frames, h: Id, q: Id)
    requires Rephased(f, g, h) && q in f && q != h && CombOk(f, q)
    ensures CombOk(g, q)
  {
    CombFrame(f, g, q);
  }

  lemma RephasedCombs(f: Frames, g: Frames, h: Id)
    requires CombInv(f, Some(h)) && Rephased(f, g, h) && CombOk(g, h)
    ensures CombInv(g, None)
  {
    forall q | q in g
      ensures CombOk(g, q)
    {
      if q != h {
        RephasedOthers(f, g, h, q);
      }
    }
  }

  lemma StackDistinct(s: State, i: int, j: int)
    requires StackInv(s) && 0 <= i < j < |s.stack|
    ensures s.stack[i].cur < s.stack[j].cur
  {
    UnderBounds(s.frames, s.stack[j].cur, s.stack[j].base);
  }

  /** Everything running is at most as young as the coroutine on top of the stack. */
  lemma TopYoungest(s: State, h: Id)
    requires StackInv(s) && h in s.frames && s.frames[h].phase.Running?
    ensures s.stack != [] && h <= Top(s)
  {
    var i :| 0 <= i < |s.stack| && s.stack[i].cur == h;
    if i < |s.stack| - 1 {
      StackDistinct(s, i, |s.stack| - 1);
    }
  }

  lemma StackSame(s: State, t: State, n: nat)
    requires StackInv(s) && n <= |s.stack| && t.stack == s.stack[..n]
    requires s.frames.Keys == t.frames.Keys
    requires forall h :: h in s.frames ==>
      t.frames[h].owner == s.frames[h].owner && t.frames[h].link == s.frames[h].link
    requires RunningOnStack(t.frames, t.stack) && StackRuns(t.frames, t.stack)
    ensures StackInv(t)
  {
    forall j | 0 < j < |t.stack|
      ensures Under(t.frames, t.stack[j].cur, t.stack[j].base)
    {
      UnderSame(s.frames, t.frames, s.stack[j].cur, s.stack[j].base);
    }
  }

  function LeaveTop(s: State, w: Where): State
    requires s.stack != []
  {
    Pop(SetPhase(s, Top(s), Suspended(w)))
  }

  lemma LeaveStack(s: State, w: Where)
    requires StackInv(s) && s.stack != []
    ensures StackInv(LeaveTop(s, w))
  {
    var r, t, n := Top(s), LeaveTop(s, w), |s.stack| - 1;
    forall i | 0 <= i < n
      ensures s.stack[i].cur != r
    {
      StackDistinct(s, i, n);
    }
    forall h | h in t.frames && t.frames[h].phase.Running?
      ensures OnStack(t.stack, h)
    {
      var i :| 0 <= i < |s.stack| && s.stack[i].cur == h;
      assert t.stack[i].cur == h;
    }
    StackSame(s, t, n);
  }

  /** The running coroutine suspends without leaving its handle anywhere yet. */
  lemma LeaveInv(s: State)
    requires Inv(s) && Executing(s)
    ensures Inv(LeaveTop(s, Nowhere))
  {
    var r, t := Top(s), LeaveTop(s, Nowhere);
    LeaveStack(s, Nowhere);
    assert Rephased(s.frames, t.frames, r);
    RephasedTree(s, t, r);
    RephasedLinks(s, t, r);
    RephasedReady(s, t, r);
    RephasedPlaces(s, t, r);
    assert CombOk(s.frames, r);
    RephasedCombs(s.frames, t.frames, r);
  }

  lemma PostReady(s: State, h: Id)
    requires ReadyInv(s) && h in s.frames && s.frames[h].phase == Suspended(Nowhere)
    ensures ReadyInv(Post(s, h))
  {
    assert h !in s.ready;
  }

  lemma PostShape(s: State, h: Id)
    requires h in s.frames && s.frames[h].phase == Suspended(Nowhere)
    ensures var t := Post(s, h);
      && Rephased(s.frames, t.frames, h)
      && (t.frames[h].phase == Suspended(Nowhere) || t.frames[h].phase == Suspended(InReady))
      && t.next == s.next && t.stack == s.stack && t.places == s.places && t.fault == s.fault
  {
  }

  /** A suspended coroutine held nowhere is posted, or its handle is dropped and counted. */
  lemma PostInv(s: State, h: Id)
    requires Inv(s) && h in s.frames && s.frames[h].phase == Suspended(Nowhere)
    ensures Inv(Post(s, h))
  {
    var t := Post(s, h);
    PostReady(s, h);
    PostShape(s, h);
    StackSame(s, t, |s.stack|);
    RephasedTree(s, t, h);
    RephasedLinks(s, t, h);
    RephasedPlaces(s, t, h);
    CombMoved(s.frames, t.frames, h);
    RephasedCombs(s.frames, t.frames, h);
  }

  lemma CombMoved(f: Frames, g: Frames, h: Id)
    requires Rephased(f, g, h) && CombOk(f, h) && f[h].phase == Suspended(Nowhere)
    requires g[h].phase == Suspended(Nowhere) || g[h].phase == Suspended(InReady)
    ensures CombOk(g, h)
  {
    if !f[h].comb.NoComb? {
      UnfinishedSame(f, g, f[h].comb.kids);
    }
  }
}
