/** `AsyncQueue` is an unbounded first-in first-out queue whose contents are the buffer
    followed by the blocked producers' items, for every interleaving of its operations and
    of the destruction of waiting coroutines. */
module AsyncQueueRuns {
  import opened Prelude
  import opened AsyncQueues

  function Items<T>(q: seq<Offer<T>>): (r: seq<T>)
    ensures |r| == |q| && forall i :: 0 <= i < |q| ==> r[i] == q[i].item
  {
    if q == [] then [] else [q[0].item] + Items(q[1..])
  }

  /** What the queue holds, oldest first. */
  function Contents<T>(s: QueueState<T>): seq<T> {
    s.buf + Items(s.pushers)
  }

  /** Consumers block only on an empty queue, producers only on a full buffer. */
  ghost predicate QueueInv<T>(s: QueueState<T>, cap: nat) {
    && |s.buf| <= cap
    && (s.poppers != [] ==> s.buf == [] && s.pushers == [])
    && (s.pushers != [] ==> |s.buf| == cap)
  }

  // ---------------------------------------------------------------------------
  // One operation against the unbounded queue
  // ---------------------------------------------------------------------------

  /** An item put into the queue joins the end of its contents, or passes through an empty
      queue to the first blocked consumer; it is refused exactly when the buffer is full. */
  lemma PutRefines<T>(s: QueueState<T>, cap: nat, v: T)
    requires QueueInv(s, cap)
    ensures var (ok, t, handed) := PutSpec(s, cap, v);
      && QueueInv(t, cap)
      && (!ok ==> t == s && |s.buf| == cap && handed == None)
      && (ok && handed == None ==> Contents(t) == Contents(s) + [v] && s.pushers == [])
      && (handed.Some? ==> Contents(s) == [] == Contents(t) && s.poppers == [handed.value] + t.poppers)
  {
  }

  /** Blocking with an item appends it to the contents as well. */
  lemma BlockRefines<T>(s: QueueState<T>, cap: nat, o: Offer<T>)
    requires QueueInv(s, cap) && s.poppers == [] && |s.buf| == cap > 0
    ensures var t := s.(pushers := s.pushers + [o]); QueueInv(t, cap) && Contents(t) == Contents(s) + [o.item]
  {
    ItemsConcat(s.pushers, [o]);
    assert Items([o]) == [o.item];
  }

  lemma {:induction false} ItemsConcat<T>(p: seq<Offer<T>>, q: seq<Offer<T>>)
    ensures Items(p + q) == Items(p) + Items(q)
  {
    if p == [] {
      assert p + q == q;
    } else {
      assert (p + q)[1..] == p[1..] + q;
      ItemsConcat(p[1..], q);
    }
  }

  /** Taking returns the oldest of the contents, and fails exactly when there are none. A producer
      is woken exactly if one is blocked: the first, whose item is now the last one stored. */
  lemma TakeRefines<T>(s: QueueState<T>, cap: nat)
    requires QueueInv(s, cap) && cap > 0
    ensures var (out, t, woken) := TakeSpec(s);
      && QueueInv(t, cap)
      && (out == None <==> Contents(s) == [])
      && (out == None ==> t == s && woken == None)
      && (out.Some? ==> Contents(s) == [out.value] + Contents(t) && t.poppers == [])
      && (woken.Some? <==> out.Some? && s.pushers != [])
      && (woken.Some? ==> t.buf != [] && s.pushers == [Offer(woken.value, t.buf[|t.buf| - 1])] + t.pushers)
      && (woken == None ==> t.pushers == s.pushers)
  {
    if s.buf != [] {
      var b, blocked := s.buf[1..], Items(s.pushers);
      assert s.buf == [s.buf[0]] + b;
      Regroup([s.buf[0]], b, blocked);
      if s.pushers != [] {
        assert blocked == [s.pushers[0].item] + Items(s.pushers[1..]);
        Regroup(b, [s.pushers[0].item], Items(s.pushers[1..]));
      }
    }
  }

  lemma Regroup<T>(a: seq<T>, b: seq<T>, c: seq<T>)
    ensures (a + b) + c == a + (b + c)
  {
  }

  // ---------------------------------------------------------------------------
  // Runs
  // ---------------------------------------------------------------------------

  /** A queue with the history of its uses. Items are named by the ticket of the push that
      brought them, so a queue of tickets stands for a queue of any item type. */
  datatype System = System(
    q: QueueState<nat>, cap: nat,
    entered: seq<nat>,     // pushes accepted or blocked, in order of arrival
    withdrawn: set<nat>,   // pushes destroyed while blocked
    accepted: seq<nat>,    // items stored, moved in or handed over, in that order
    given: seq<nat>,       // items given to consumers, in that order
    taken: nat,            // ... at once
    pending: set<nat>,     // consumers handed an item, not resumed yet
    resumed: nat, lost: nat,
    arrived: seq<nat>,     // consumers that had to wait, in order of arrival
    gone: set<nat>,        // consumers destroyed while waiting
    served: seq<nat>,      // consumers in the order they were handed items
    blocked: seq<nat>,     // producers that had to wait, in order of arrival
    woken: seq<nat>)       // producers in the order they were posted

  datatype Use =
    | Push(t: nat) | TryPush(t: nat) | Pop(c: nat) | TryPop
    | Resume(c: nat) | DropPusher(t: nat) | DropPopper(c: nat)

  function Start(cap: nat): System {
    System(QueueState([], [], []), cap, [], {}, [], [], 0, {}, 0, 0, [], {}, [], [], [])
  }

  predicate Possible(s: System, u: Use) {
    match u
    case Push(t) => t !in s.entered
    case TryPush(t) => t !in s.entered
    case Pop(c) => c !in s.arrived
    case TryPop => true
    case Resume(c) => c in s.pending
    case DropPusher(t) => Offer(t, t) in s.q.pushers
    case DropPopper(c) => c in s.q.poppers || c in s.pending
  }

  function AfterPut(s: System, t: nat): System {
    var (ok, q, handed) := PutSpec(s.q, s.cap, t);
    if !ok then s
    else
      var r := s.(q := q, entered := s.entered + [t], accepted := s.accepted + [t]);
      if handed == None then r
      else r.(given := r.given + [t], pending := r.pending + {handed.value}, served := r.served + [handed.value])
  }

  function AfterTake(s: System): System {
    var (out, q, woken) := TakeSpec(s.q);
    if out == None then s
    else
      var r := s.(q := q, given := s.given + [out.value], taken := s.taken + 1);
      if woken == None || q.buf == [] then r
      else r.(accepted := r.accepted + [q.buf[|q.buf| - 1]], woken := r.woken + [woken.value])
  }

  function WithoutTicket(q: seq<Offer<nat>>, t: nat): seq<Offer<nat>> {
    Without(q, {Offer(t, t)})
  }

  function Blocked(s: System, t: nat): System {
    s.(q := s.q.(pushers := s.q.pushers + [Offer(t, t)]), entered := s.entered + [t], blocked := s.blocked + [t])
  }

  function PusherGone(s: System, t: nat): System {
    s.(q := s.q.(pushers := WithoutTicket(s.q.pushers, t)), withdrawn := s.withdrawn + {t})
  }

  function Do(s: System, u: Use): System {
    match u
    case Push(t) =>
      if PutSpec(s.q, s.cap, t).0 then AfterPut(s, t)
      else Blocked(s, t)
    case TryPush(t) => AfterPut(s, t)
    case Pop(c) =>
      if TakeSpec(s.q).0.Some? then AfterTake(s)
      else s.(q := s.q.(poppers := s.q.poppers + [c]), arrived := s.arrived + [c])
    case TryPop => AfterTake(s)
    case Resume(c) => s.(pending := s.pending - {c}, resumed := s.resumed + 1)
    case DropPusher(t) => PusherGone(s, t)
    case DropPopper(c) =>
      if c in s.q.poppers then s.(q := s.q.(poppers := Without(s.q.poppers, {c})), gone := s.gone + {c})
      else s.(pending := s.pending - {c}, lost := s.lost + 1)
  }

  function DoAll(s: System, us: seq<Use>): Option<System>
    decreases |us|
  {
    if us == [] then Some(s)
    else if !Possible(s, us[0]) then None
    else DoAll(Do(s, us[0]), us[1..])
  }

  ghost predicate ItemsInv(s: System) {
    && QueueInv(s.q, s.cap) && s.cap > 0
    && (forall i :: 0 <= i < |s.q.pushers| ==> s.q.pushers[i].h == s.q.pushers[i].item)
    && NoDups(s.entered) && (forall t :: t in s.withdrawn ==> t in s.entered)
    && s.accepted == s.given + s.q.buf
    && Without(s.entered, s.withdrawn) == s.accepted + Items(s.q.pushers)
  }

  ghost predicate ConsumersInv(s: System) {
    && NoDups(s.arrived) && (forall c :: c in s.gone ==> c in s.arrived)
    && Without(s.arrived, s.gone) == s.served + s.q.poppers
    && (forall c :: c in s.pending ==> c in s.served)
    && |s.given| == s.taken + |s.pending| + s.resumed + s.lost
  }

  function Producers(q: seq<Offer<nat>>): (r: seq<nat>)
    ensures |r| == |q| && forall i :: 0 <= i < |q| ==> r[i] == q[i].h
  {
    if q == [] then [] else [q[0].h] + Producers(q[1..])
  }

  /** Each producer that was blocked waits, was posted in its turn, or was destroyed first. */
  ghost predicate ProducersInv(s: System) {
    && NoDups(s.blocked) && (forall t :: t in s.withdrawn ==> t in s.blocked)
    && (forall t :: t in s.blocked ==> t in s.entered)
    && Without(s.blocked, s.withdrawn) == s.woken + Producers(s.q.pushers)
  }

  lemma Fresh(s: seq<nat>, gone: set<nat>, t: nat)
    requires t !in s && forall x :: x in gone ==> x in s
    ensures Without(s + [t], gone) == Without(s, gone) + [t]
    ensures NoDups(s) ==> NoDups(s + [t])
  {
    WithoutConcat(s, [t], gone);
    assert Without([t], gone) == [t];
  }

  lemma PutItems(s: System, t: nat)
    requires ItemsInv(s) && t !in s.entered
    ensures ItemsInv(AfterPut(s, t))
  {
    Fresh(s.entered, s.withdrawn, t);
    PutRefines(s.q, s.cap, t);
    var (ok, q, handed) := PutSpec(s.q, s.cap, t);
    if ok && handed == None {
      assert s.given + s.q.buf + [t] == s.given + (s.q.buf + [t]);
    }
  }

  lemma PutConsumers(s: System, t: nat)
    requires ItemsInv(s) && ConsumersInv(s)
    ensures ConsumersInv(AfterPut(s, t))
  {
    var (ok, q, handed) := PutSpec(s.q, s.cap, t);
    if handed.Some? {
      WithoutNoDups(s.arrived, s.gone);
      NotInFront(s.served, s.q.poppers, 0);
      assert s.served + s.q.poppers == s.served + [s.q.poppers[0]] + s.q.poppers[1..];
    }
  }

  lemma BlockItems(s: System, t: nat)
    requires ItemsInv(s) && t !in s.entered && !PutSpec(s.q, s.cap, t).0
    ensures ItemsInv(Blocked(s, t))
  {
    Fresh(s.entered, s.withdrawn, t);
    Joined(s.q.pushers, t);
    Regroup(s.accepted, Items(s.q.pushers), [t]);
  }

  lemma Joined(q: seq<Offer<nat>>, t: nat)
    requires forall i :: 0 <= i < |q| ==> q[i].h == q[i].item
    ensures var r := q + [Offer(t, t)]; Items(r) == Items(q) + [t] && forall i :: 0 <= i < |r| ==> r[i].h == r[i].item
  {
    ItemsConcat(q, [Offer(t, t)]);
    assert Items([Offer(t, t)]) == [t];
  }

  lemma TakeItems(s: System)
    requires ItemsInv(s)
    ensures ItemsInv(AfterTake(s))
  {
    TakeRefines(s.q, s.cap);
    var (out, q, woken) := TakeSpec(s.q);
    if out.Some? {
      var x, b := [s.q.buf[0]], s.q.buf[1..];
      assert s.q.buf == x + b;
      Regroup(s.given, x, b);
      if woken.Some? {
        var o := [s.q.pushers[0].item];
        assert q.buf == b + o && q.buf[|q.buf| - 1] == o[0];
        Regroup(s.given + x, b, o);
        assert Items(s.q.pushers) == o + Items(s.q.pushers[1..]);
        Regroup(s.accepted, o, Items(s.q.pushers[1..]));
      }
    }
  }

  lemma {:induction false} ItemsWithout(q: seq<Offer<nat>>, t: nat)
    requires forall i :: 0 <= i < |q| ==> q[i].h == q[i].item
    ensures Items(WithoutTicket(q, t)) == Without(Items(q), {t})
  {
    if q != [] {
      ItemsWithout(q[1..], t);
    }
  }

  lemma DropItems(s: System, t: nat)
    requires ItemsInv(s) && Offer(t, t) in s.q.pushers
    ensures ItemsInv(PusherGone(s, t))
  {
    var k :| 0 <= k < |s.q.pushers| && s.q.pushers[k] == Offer(t, t);
    assert Items(s.q.pushers)[k] == t;
    DropOne(s.entered, s.withdrawn, s.accepted, Items(s.q.pushers), t);
    ItemsWithout(s.q.pushers, t);
    StillPaired(s.q.pushers, t);
  }

  lemma StillPaired(q: seq<Offer<nat>>, t: nat)
    requires forall i :: 0 <= i < |q| ==> q[i].h == q[i].item
    ensures var r := WithoutTicket(q, t); forall i :: 0 <= i < |r| ==> r[i].h == r[i].item
  {
    var r := WithoutTicket(q, t);
    forall i | 0 <= i < |r|
      ensures r[i].h == r[i].item
    {
      assert r[i] in q;
    }
  }

  lemma DropConsumers(s: System, c: nat)
    requires ItemsInv(s) && ConsumersInv(s) && c in s.q.poppers
    ensures ConsumersInv(Do(s, DropPopper(c)))
  {
    DropOne(s.arrived, s.gone, s.served, s.q.poppers, c);
  }

  lemma PopKeeps(s: System, c: nat)
    requires ItemsInv(s) && ConsumersInv(s) && c !in s.arrived
    ensures ItemsInv(Do(s, Pop(c))) && ConsumersInv(Do(s, Pop(c)))
  {
    TakeRefines(s.q, s.cap);
    TakeItems(s);
    if TakeSpec(s.q).0 == None {
      Fresh(s.arrived, s.gone, c);
      assert s.served + s.q.poppers + [c] == s.served + (s.q.poppers + [c]);
    }
  }

  // The producers that had to wait.

  lemma BlockProducers(s: System, t: nat)
    requires ProducersInv(s) && t !in s.entered
    ensures ProducersInv(Blocked(s, t))
  {
    Fresh(s.blocked, s.withdrawn, t);
    var q := s.q.pushers;
    assert Producers(q + [Offer(t, t)]) == Producers(q) + [t];
    Regroup(s.woken, Producers(q), [t]);
  }

  lemma TakeProducers(s: System)
    requires ItemsInv(s) && ProducersInv(s)
    ensures ProducersInv(AfterTake(s))
  {
    TakeRefines(s.q, s.cap);
    var (out, q, woken) := TakeSpec(s.q);
    if woken.Some? {
      assert Producers(s.q.pushers) == [woken.value] + Producers(q.pushers);
      Regroup(s.woken, [woken.value], Producers(q.pushers));
    }
  }

  lemma {:induction false} ProducersAre(q: seq<Offer<nat>>)
    requires forall i :: 0 <= i < |q| ==> q[i].h == q[i].item
    ensures Producers(q) == Items(q)
  {
  }

  lemma DropProducer(s: System, t: nat)
    requires ItemsInv(s) && ProducersInv(s) && Offer(t, t) in s.q.pushers
    ensures ProducersInv(PusherGone(s, t))
  {
    var k :| 0 <= k < |s.q.pushers| && s.q.pushers[k] == Offer(t, t);
    assert Producers(s.q.pushers)[k] == t;
    DropOne(s.blocked, s.withdrawn, s.woken, Producers(s.q.pushers), t);
    ItemsWithout(s.q.pushers, t);
    StillPaired(s.q.pushers, t);
    ProducersAre(s.q.pushers);
    ProducersAre(WithoutTicket(s.q.pushers, t));
  }

  lemma ProducersKeep(s: System, u: Use)
    requires ItemsInv(s) && ProducersInv(s) && Possible(s, u)
    ensures ProducersInv(Do(s, u))
  {
    match u
    case Push(t) =>
      PutRefines(s.q, s.cap, t);
      if !PutSpec(s.q, s.cap, t).0 {
        BlockProducers(s, t);
      }
    case Pop(c) => TakeProducers(s);
    case TryPop => TakeProducers(s);
    case DropPusher(t) => DropProducer(s, t);
    case TryPush(t) => PutRefines(s.q, s.cap, t);
    case _ =>
  }

  lemma UseKeeps(s: System, u: Use)
    requires ItemsInv(s) && ConsumersInv(s) && Possible(s, u)
    ensures ItemsInv(Do(s, u)) && ConsumersInv(Do(s, u))
  {
    match u
    case Push(t) =>
      if PutSpec(s.q, s.cap, t).0 {
        PutItems(s, t);
        PutConsumers(s, t);
      } else {
        BlockItems(s, t);
      }
    case TryPush(t) =>
      PutItems(s, t);
      PutConsumers(s, t);
    case Pop(c) => PopKeeps(s, c);
    case TryPop =>
      TakeRefines(s.q, s.cap);
      TakeItems(s);
    case Resume(c) =>
    case DropPusher(t) => DropItems(s, t);
    case DropPopper(c) =>
      if c in s.q.poppers {
        DropConsumers(s, c);
      }
  }

  lemma {:induction false} RunKeeps(s: System, us: seq<Use>)
    requires ItemsInv(s) && ConsumersInv(s) && ProducersInv(s)
    ensures DoAll(s, us).Some? ==>
      ItemsInv(DoAll(s, us).value) && ConsumersInv(DoAll(s, us).value) && ProducersInv(DoAll(s, us).value)
    decreases |us|
  {
    if us != [] && Possible(s, us[0]) {
      UseKeeps(s, us[0]);
      ProducersKeep(s, us[0]);
      RunKeeps(Do(s, us[0]), us[1..]);
    }
  }

  lemma OrderHolds(s: System)
    requires ItemsInv(s) && ConsumersInv(s)
    ensures Without(s.entered, s.withdrawn) == s.given + Contents(s.q)
    ensures |s.accepted| == s.taken + s.resumed + |s.q.buf| + |s.pending| + s.lost
  {
    Regroup(s.given, s.q.buf, Items(s.q.pushers));
  }

  /** In every run items leave in exactly the order in which their producers arrived,
      skipping only producers destroyed while blocked; blocked consumers are served, and blocked
      producers posted, in arrival order and once each; and every accepted item is delivered,
      buffered, or handed to a consumer that has not resumed yet or was destroyed first. */
  lemma FirstInFirstOut(cap: nat, us: seq<Use>)
    requires cap > 0
    ensures DoAll(Start(cap), us).Some? ==>
      var s := DoAll(Start(cap), us).value;
      && Without(s.entered, s.withdrawn) == s.given + Contents(s.q)
      && s.accepted == s.given + s.q.buf
      && Without(s.arrived, s.gone) == s.served + s.q.poppers
      && Without(s.blocked, s.withdrawn) == s.woken + Producers(s.q.pushers)
      && NoDups(s.arrived) && NoDups(s.blocked)
      && |s.accepted| == s.taken + s.resumed + |s.q.buf| + |s.pending| + s.lost
      && QueueInv(s.q, s.cap)
  {
    RunKeeps(Start(cap), us);
    if DoAll(Start(cap), us).Some? {
      OrderHolds(DoAll(Start(cap), us).value);
    }
  }
}
