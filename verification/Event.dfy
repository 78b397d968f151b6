/** The cooperative event: a flag and the coroutines that wait for it, latest first. */
module Events {
  import opened Prelude
  import opened WaitQueues

  datatype EventState = EventState(set_: bool, waiting: seq<nat>)

  /** `set`: everybody is posted, latest first. */
  function SetSpec(s: EventState): (EventState, seq<nat>) {
    (EventState(true, []), s.waiting)
  }

  /** `co_await`: whether the coroutine goes on at once, and the new state. */
  function AwaitSpec(s: EventState, h: nat): (bool, EventState) {
    if s.set_ then (true, s) else (false, s.(waiting := [h] + s.waiting))
  }

  function WithdrawSpec(s: EventState, h: nat): EventState {
    s.(waiting := Without(s.waiting, {h}))
  }

  class Event {
    var state: bool
    const waiters: WaitQueue<()>

    ghost predicate Valid()
      reads this, waiters, waiters.nodes
    {
      waiters.Valid() && DistinctHandles(waiters.nodes)
    }

    ghost function View(): EventState
      reads this, waiters, waiters.nodes
    {
      EventState(state, Handles(waiters.nodes))
    }

    constructor (initial: bool)
      ensures Valid() && View() == EventState(initial, []) && fresh(waiters)
    {
      state := initial;
      waiters := new WaitQueue<()>();
    }

    method Set() returns (posted: seq<nat>)
      requires Valid()
      modifies this`state, waiters, waiters.nodes`next, waiters.nodes`linked
      ensures Valid() && state && waiters.nodes == []
      ensures View() == SetSpec(old(View())).0 && posted == SetSpec(old(View())).1 == old(View()).waiting
      ensures forall w :: w in old(waiters.nodes) ==> !w.linked
    {
      state := true;
      posted := waiters.TakeAll();
    }

    method Reset()
      modifies this`state
      ensures View() == old(View()).(set_ := false)
    {
      state := false;
    }

    /** `await_suspend`, after `await_ready` found the flag clear. */
    method Wait(w: Waiter<()>)
      requires Valid() && w !in waiters.nodes
      requires forall v :: v in waiters.nodes ==> v.handle != w.handle
      modifies waiters, w`next, w`linked
      ensures Valid() && View() == EventState(old(state), [w.handle] + old(View()).waiting)
      ensures waiters.nodes == [w] + old(waiters.nodes)
    {
      waiters.Prepend(w);
    }

    /** `co_await`: goes on at once if the flag is set. */
    method Await(w: Waiter<()>) returns (passed: bool)
      requires Valid() && w !in waiters.nodes
      requires forall v :: v in waiters.nodes ==> v.handle != w.handle
      modifies waiters, w`next, w`linked
      ensures Valid() && (passed, View()) == AwaitSpec(old(View()), w.handle)
      ensures waiters.nodes == if passed then old(waiters.nodes) else [w] + old(waiters.nodes)
    {
      passed := state;
      if !passed {
        Wait(w);
      }
    }

    /** The awaiter is destroyed: still waiting, it leaves the list; otherwise nothing changes. */
    method Destroy(w: Waiter<()>)
      requires Valid() && (w.linked <==> w in waiters.nodes)
      modifies waiters, waiters.nodes`next, waiters.nodes`linked
      ensures Valid() && w !in waiters.nodes
      ensures View() == if w in old(waiters.nodes) then WithdrawSpec(old(View()), w.handle) else old(View())
    {
      if w.linked {
        ghost var q := waiters.nodes;
        ghost var i := waiters.Unlink(w);
        HandlesWithout(q, i);
      }
    }
  }

  // ---------------------------------------------------------------------------
  // Runs
  // ---------------------------------------------------------------------------

  /** An event with its history. A ticket names one awaiter. */
  datatype System = System(
    ev: EventState,
    passed: seq<nat>,       // awaits that found the flag set
    arrived: seq<nat>,      // awaits that had to wait, latest first
    withdrawn: set<nat>,    // ... of these, destroyed while waiting
    posted: seq<seq<nat>>)  // what each `set` posted, in order

  datatype Use = Await(t: nat) | Set | Reset | Destroy(t: nat)

  function Start(initial: bool): System {
    System(EventState(initial, []), [], [], {}, [])
  }

  predicate Possible(s: System, u: Use) {
    u.Await? ==> u.t !in s.arrived && u.t !in s.passed
  }

  function Do(s: System, u: Use): System {
    match u
    case Await(t) =>
      var (passed, ev) := AwaitSpec(s.ev, t);
      if passed then s.(ev := ev, passed := s.passed + [t]) else s.(ev := ev, arrived := [t] + s.arrived)
    case Set =>
      var (ev, posted) := SetSpec(s.ev);
      s.(ev := ev, posted := s.posted + [posted])
    case Reset => s.(ev := s.ev.(set_ := false))
    case Destroy(t) =>
      if t in s.ev.waiting then s.(ev := WithdrawSpec(s.ev, t), withdrawn := s.withdrawn + {t}) else s
  }

  function DoAll(s: System, us: seq<Use>): Option<System>
    decreases |us|
  {
    if us == [] then Some(s)
    else if Possible(s, us[0]) then DoAll(Do(s, us[0]), us[1..])
    else None
  }

  /** The flag after these uses: as the last `set` or `reset` left it. */
  function Flag(flag: bool, us: seq<Use>): bool
    decreases |us|
  {
    if us == [] then flag else Flag(us[0].Set? || (flag && !us[0].Reset?), us[1..])
  }

  lemma {:induction false} FlagKept(s: System, us: seq<Use>)
    ensures DoAll(s, us).Some? ==> DoAll(s, us).value.ev.set_ == Flag(s.ev.set_, us)
    decreases |us|
  {
    if us != [] && Possible(s, us[0]) {
      FlagKept(Do(s, us[0]), us[1..]);
    }
  }

  /** In every run: from a `set` to the next `reset` each await passes without waiting, and at any
      other time it has to wait. */
  lemma PassesExactly(initial: bool, us: seq<Use>, s: System, t: nat)
    requires DoAll(Start(initial), us) == Some(s) && Possible(s, Await(t))
    ensures Flag(initial, us) ==> Do(s, Await(t)) == s.(passed := s.passed + [t])
    ensures !Flag(initial, us) ==>
      var r := Do(s, Await(t));
      t in r.ev.waiting && r.arrived == [t] + s.arrived && r.passed == s.passed && r.posted == s.posted
  {
    FlagKept(Start(initial), us);
  }

  /** All groups after one another, the last one first. */
  function Backward(groups: seq<seq<nat>>): seq<nat> {
    if groups == [] then [] else groups[|groups| - 1] + Backward(groups[..|groups| - 1])
  }

  /** Who had to wait and was not withdrawn, latest first: those waiting, then those of the last
      `set`, those of the `set` before, and so on. */
  ghost predicate Fates(s: System) {
    && (s.ev.set_ ==> s.ev.waiting == [])
    && NoDups(s.arrived) && (forall t :: t in s.withdrawn ==> t in s.arrived)
    && Without(s.arrived, s.withdrawn) == s.ev.waiting + Backward(s.posted)
  }

  lemma AwaitKeeps(s: System, t: nat)
    requires Fates(s) && t !in s.arrived
    ensures Fates(Do(s, Await(t)))
  {
    WithoutConcat([t], s.arrived, s.withdrawn);
    assert Without([t], s.withdrawn) == [t];
    assert [t] + s.ev.waiting + Backward(s.posted) == [t] + (s.ev.waiting + Backward(s.posted));
  }

  lemma SetKeeps(s: System)
    requires Fates(s)
    ensures Fates(Do(s, Set))
  {
    var r := Do(s, Set);
    assert r.posted[..|r.posted| - 1] == s.posted;
    assert Backward(r.posted) == s.ev.waiting + Backward(s.posted);
  }

  lemma UseKeeps(s: System, u: Use)
    requires Fates(s) && Possible(s, u)
    ensures Fates(Do(s, u))
  {
    match u
    case Await(t) => AwaitKeeps(s, t);
    case Set => SetKeeps(s);
    case Destroy(t) =>
      if t in s.ev.waiting {
        DropFirst(s.arrived, s.withdrawn, s.ev.waiting, Backward(s.posted), t);
      }
    case Reset =>
  }

  lemma {:induction false} RunKeeps(s: System, us: seq<Use>)
    requires Fates(s)
    ensures DoAll(s, us).Some? ==> Fates(DoAll(s, us).value)
    decreases |us|
  {
    if us != [] && Possible(s, us[0]) {
      UseKeeps(s, us[0]);
      RunKeeps(Do(s, us[0]), us[1..]);
    }
  }

  lemma OnceOnly(q: seq<nat>, t: nat)
    requires NoDups(q)
    ensures multiset(q)[t] == if t in q then 1 else 0
  {
    if t in q {
      var i :| 0 <= i < |q| && q[i] == t;
      NowhereElse(q, i);
      SplitAt(q, i);
      assert multiset(q) == multiset(q[..i]) + multiset{t} + multiset(q[i + 1..]);
    }
  }

  /** In every run: nobody waits on a set event; the awaiters that had to wait, but for those
      destroyed while waiting, are the ones still waiting followed by the ones each `set` posted,
      the latest arrival first throughout; so each was posted once, still waits, or was destroyed
      first and is never posted. */
  lemma PostedOnce(initial: bool, us: seq<Use>, s: System, t: nat)
    requires DoAll(Start(initial), us) == Some(s)
    ensures Flag(initial, us) ==> s.ev.waiting == []
    ensures Without(s.arrived, s.withdrawn) == s.ev.waiting + Backward(s.posted)
    ensures multiset(s.ev.waiting)[t] + multiset(Backward(s.posted))[t] + (if t in s.withdrawn then 1 else 0) ==
      if t in s.arrived then 1 else 0
  {
    FlagKept(Start(initial), us);
    RunKeeps(Start(initial), us);
    WithoutNoDups(s.arrived, s.withdrawn);
    OnceOnly(Without(s.arrived, s.withdrawn), t);
    assert multiset(s.ev.waiting + Backward(s.posted)) == multiset(s.ev.waiting) + multiset(Backward(s.posted));
  }
}
