/** The counting semaphore with direct hand-off of permits to waiters in arrival order. */
module Semaphores {
  import opened Prelude
  import opened WaitQueues

  /** What callers can observe: the free permits and who waits, first come first. */
  datatype SemState = SemState(count: nat, waiting: seq<nat>)

  function ReleaseSpec(s: SemState): (SemState, Option<nat>) {
    if s.waiting != [] then (SemState(s.count, s.waiting[1..]), Some(s.waiting[0]))
    else (SemState(s.count + 1, []), None)
  }

  /** `co_await` of `acquire()`: whether the coroutine goes on at once, and the new state. */
  function AcquireSpec(s: SemState, h: nat): (bool, SemState) {
    if s.count > 0 then (true, s.(count := s.count - 1)) else (false, s.(waiting := s.waiting + [h]))
  }

  function WithdrawSpec(s: SemState, h: nat): SemState {
    s.(waiting := Without(s.waiting, {h}))
  }

  class Semaphore {
    var count: nat
    const waiters: WaitQueue<()>

    ghost predicate Valid()
      reads this, waiters, waiters.nodes
    {
      && waiters.Valid() && DistinctHandles(waiters.nodes)
      && (forall w :: w in waiters.nodes ==> !w.granted)
    }

    ghost function View(): SemState
      reads this, waiters, waiters.nodes
    {
      SemState(count, Handles(waiters.nodes))
    }

    constructor (initial: nat)
      ensures Valid() && View() == SemState(initial, []) && fresh(waiters)
    {
      count := initial;
      waiters := new WaitQueue<()>();
    }

    /** The permit goes to the first waiter, which is posted, or onto the count. */
    method Release() returns (posted: Option<nat>)
      requires Valid()
      modifies this`count, waiters, waiters.nodes`next, waiters.nodes`linked, waiters.nodes`granted
      ensures Valid() && (View(), posted) == ReleaseSpec(old(View()))
      ensures old(waiters.nodes) != [] ==>
        waiters.nodes == old(waiters.nodes)[1..] && old(waiters.nodes)[0].granted && !old(waiters.nodes)[0].linked
    {
      if waiters.head != null {
        var w := waiters.TakeFirst();
        posted := Some(w.handle);
        w.granted := true;
      } else {
        count := count + 1;
        posted := None;
      }
    }

    /** `await_suspend`: the awaiter joins the end of the list. */
    method Wait(w: Waiter<()>)
      requires Valid() && w !in waiters.nodes && !w.granted
      requires forall v :: v in waiters.nodes ==> v.handle != w.handle
      modifies waiters, w`next, w`linked, waiters.nodes`next
      ensures Valid() && waiters.nodes == old(waiters.nodes) + [w]
      ensures View() == SemState(old(count), old(View()).waiting + [w.handle])
    {
      waiters.Append(w);
    }

    /** `await_resume`: a handed-over permit is the waiter's already, any other is taken now. */
    method Resume(w: Waiter<()>)
      requires Valid()
      modifies this`count
      ensures Valid() && View().waiting == old(View()).waiting
      ensures count == if w.granted || old(count) == 0 then old(count) else old(count) - 1
    {
      if !w.granted && count > 0 {
        count := count - 1;
      }
    }

    /** `co_await`: `await_ready`, then `await_resume` at once or `await_suspend`. */
    method Acquire(w: Waiter<()>) returns (passed: bool)
      requires Valid() && w !in waiters.nodes && !w.granted
      requires forall v :: v in waiters.nodes ==> v.handle != w.handle
      modifies this`count, waiters, w`next, w`linked, waiters.nodes`next
      ensures Valid() && passed == (old(count) > 0)
      ensures (passed, View()) == AcquireSpec(old(View()), w.handle)
      ensures waiters.nodes == if passed then old(waiters.nodes) else old(waiters.nodes) + [w]
    {
      passed := count > 0;
      if passed {
        Resume(w);
      } else {
        Wait(w);
      }
    }

    /** The awaiter is destroyed: still waiting, it leaves the list; otherwise nothing changes. */
    method Destroy(w: Waiter<()>)
      requires Valid() && (w.linked <==> w in waiters.nodes)
      modifies waiters, waiters.nodes`next, waiters.nodes`linked
      ensures Valid() && w !in waiters.nodes
      ensures View() == if w in old(waiters.nodes) then WithdrawSpec(old(View()), w.handle) else old(View())
    {
      if w.linked {
        ghost var q := waiters.nodes;
        ghost var i := waiters.Unlink(w);
        HandlesWithout(q, i);
      }
    }
  }

  // ---------------------------------------------------------------------------
  // Runs: every use of one semaphore by any number of coroutines
  // ---------------------------------------------------------------------------

  /** A semaphore with the history of its uses. A ticket names one `acquire()` awaiter. */
  datatype System = System(
    sem: SemState, initial: nat, releases: nat,
    completed: nat,          // acquisitions that returned to their coroutine
    granted: set<nat>,       // tickets whose permit was handed over, not resumed yet
    forfeited: nat,          // granted tickets destroyed before they resumed
    arrivals: seq<nat>,      // tickets that had to wait, in order
    withdrawn: set<nat>,     // tickets destroyed while waiting
    grants: seq<nat>)        // tickets in the order their permits were handed over

  datatype Use = Acquire(t: nat) | Release | Resume(t: nat) | Destroy(t: nat)

  function Start(initial: nat): System {
    System(SemState(initial, []), initial, 0, 0, {}, 0, [], {}, [])
  }

  predicate Possible(s: System, u: Use) {
    match u
    case Acquire(t) => t !in s.arrivals
    case Release => true
    case Resume(t) => t in s.granted
    case Destroy(t) => t in s.granted || t in s.sem.waiting
  }

  function Do(s: System, u: Use): System
    requires Possible(s, u)
  {
    match u
    case Acquire(t) =>
      var (passed, sem) := AcquireSpec(s.sem, t);
      if passed then s.(sem := sem, completed := s.completed + 1) else s.(sem := sem, arrivals := s.arrivals + [t])
    case Release =>
      var (sem, posted) := ReleaseSpec(s.sem);
      var r := s.(sem := sem, releases := s.releases + 1);
      if posted.Some? then r.(granted := r.granted + {posted.value}, grants := r.grants + [posted.value]) else r
    case Resume(t) => s.(completed := s.completed + 1, granted := s.granted - {t})
    case Destroy(t) =>
      if t in s.sem.waiting then s.(sem := WithdrawSpec(s.sem, t), withdrawn := s.withdrawn + {t})
      else s.(granted := s.granted - {t}, forfeited := s.forfeited + 1)
  }

  function DoAll(s: System, us: seq<Use>): Option<System>
    decreases |us|
  {
    if us == [] then Some(s)
    else if !Possible(s, us[0]) then None
    else DoAll(Do(s, us[0]), us[1..])
  }

  ghost predicate SystemInv(s: System) {
    && (s.sem.waiting != [] ==> s.sem.count == 0)
    && s.initial + s.releases == s.sem.count + s.completed + |s.granted| + s.forfeited
    && NoDups(s.arrivals)
    && Without(s.arrivals, s.withdrawn) == s.grants + s.sem.waiting
    && (forall t :: t in s.granted ==> t in s.grants)
    && (forall t :: t in s.withdrawn ==> t in s.arrivals)
  }

  lemma UsesKeep(s: System, u: Use)
    requires SystemInv(s) && Possible(s, u)
    ensures SystemInv(Do(s, u))
  {
    WithoutNoDups(s.arrivals, s.withdrawn);
    match u
    case Acquire(t) =>
      if s.sem.count == 0 {
        WithoutConcat(s.arrivals, [t], s.withdrawn);
        assert Without([t], s.withdrawn) == [t];
        assert s.grants + s.sem.waiting + [t] == s.grants + (s.sem.waiting + [t]);
      }
    case Release =>
      if s.sem.waiting != [] {
        var t := s.sem.waiting[0];
        NotInFront(s.grants, s.sem.waiting, 0);
        assert s.grants + s.sem.waiting == s.grants + [t] + s.sem.waiting[1..];
      }
    case Resume(t) =>
    case Destroy(t) =>
      if t in s.sem.waiting {
        DropOne(s.arrivals, s.withdrawn, s.grants, s.sem.waiting, t);
      }
  }

  lemma {:induction false} RunsKeep(s: System, us: seq<Use>)
    requires SystemInv(s)
    ensures DoAll(s, us).Some? ==> SystemInv(DoAll(s, us).value)
    decreases |us|
  {
    if us != [] && Possible(s, us[0]) {
      UsesKeep(s, us[0]);
      RunsKeep(Do(s, us[0]), us[1..]);
    }
  }

  /** Over every run: permits are conserved, waiters exist only when no permit is free, and
      permits are handed over strictly in arrival order, skipping only withdrawn waiters. */
  lemma PermitsConserved(initial: nat, us: seq<Use>)
    ensures var r := DoAll(Start(initial), us);
      r.Some? ==>
        var s := r.value;
        && s.initial == initial
        && initial + s.releases == s.sem.count + s.completed + |s.granted| + s.forfeited
        && (s.sem.waiting != [] ==> s.sem.count == 0)
        && s.grants + s.sem.waiting == Without(s.arrivals, s.withdrawn)
  {
    RunsKeep(Start(initial), us);
    InitialKept(Start(initial), us);
  }

  lemma {:induction false} InitialKept(s: System, us: seq<Use>)
    ensures DoAll(s, us).Some? ==> DoAll(s, us).value.initial == s.initial
    decreases |us|
  {
    if us != [] && Possible(s, us[0]) {
      InitialKept(Do(s, us[0]), us[1..]);
    }
  }

  /** Nobody overtakes: an acquisition completes without waiting only when nobody waits. */
  lemma NoOvertaking(s: System, t: nat)
    requires SystemInv(s) && Possible(s, Acquire(t)) && s.sem.waiting != []
    ensures var r := Do(s, Acquire(t));
      && r.completed == s.completed
      && r.sem.waiting == s.sem.waiting + [t]
  {
  }

  /** In every run an acquirer passes exactly when a permit is free: more were there at first and
      released than were taken, handed over or forfeited; otherwise it goes to the end of the line. */
  lemma PassesExactly(initial: nat, us: seq<Use>, s: System, t: nat)
    requires DoAll(Start(initial), us) == Some(s) && Possible(s, Acquire(t))
    ensures var r, taken := Do(s, Acquire(t)), s.completed + |s.granted| + s.forfeited;
      && initial + s.releases >= taken
      && r.completed == (if initial + s.releases > taken then s.completed + 1 else s.completed)
      && r.sem.waiting == (if initial + s.releases > taken then s.sem.waiting else s.sem.waiting + [t])
      && r.arrivals == (if initial + s.releases > taken then s.arrivals else s.arrivals + [t])
  {
    PermitsConserved(initial, us);
  }
}
