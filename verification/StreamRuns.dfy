/** Every use of one stream channel by any number of coroutines: what becomes of each packet,
    whose wait ends and why, and what a resumed waiter reads. */
module StreamRuns {
  import opened Prelude
  import opened Streams

  /** Where an awaiter object stands: in the channel's slot since `since` packets had arrived, at
      least if nobody took the slot away; posted with the `n` packets from `first` on; or back at
      once, refused or with nothing to wait for. */
  datatype Phase = Waits(since: nat) | Given(first: nat, n: nat) | Returned

  /** A `StreamAwaiter` (its span is empty) or `StreamBatchAwaiter` that has been awaited. */
  datatype Awaiter = Awaiter(batch: bool, span: Span, asked: nat, phase: Phase)

  /** A completed batch: what its owner asked for and what it finds in its buffer. */
  datatype Batched = Batched(first: nat, asked: nat, size: nat, got: seq<Tlp>)

  /** A channel, the awaiter objects alive, named by their coroutines, and the history. */
  datatype System = System(
    c: Channel, mem: Memory, aws: map<nat, Awaiter>,
    polled: seq<Tlp>,       // stream packets of this channel, in order of arrival
    singleAt: seq<nat>,     // the arrivals delivered one by one
    stored: nat,            // packets written into batch buffers
    batches: seq<Batched>,
    latestAt: Option<nat>,  // which arrival was put into the slot single waiters read
    seen: map<nat, nat>,   // the arrival each resumed single waiter read
    counts: map<nat, nat>,  // the count each resumed batch waiter was given
    posted: seq<nat>)       // the coroutines posted, in order

  datatype Use =
    | Poll(tlp: Tlp) | Wait(t: nat) | Batch(t: nat, span: Span, asked: nat)
    | Resume(t: nat)  // the posted coroutine reads its result, and its awaiter ends
    | Drop(t: nat)    // the awaiter is destroyed, whatever it waits for

  const NO_AWAITERS: map<nat, Awaiter> := map[]

  function Start(mem: Memory): System {
    System(Channel(None, NO_SPAN, 0, 0, EMPTY, 0, 0), mem, NO_AWAITERS, [], [], 0, [], None, map[], map[], [])
  }

  /** A span that is not empty lies in client memory. */
  predicate Possible(s: System, u: Use) {
    match u
    case Poll(_) => true
    case Wait(t) => t !in s.aws
    case Batch(t, span, _) =>
      && t !in s.aws
      && (span.size > 0 ==> span.data.Some? && span.data.value in s.mem && |s.mem[span.data.value]| == span.size)
    case Resume(t) => t in s.aws && s.aws[t].phase.Given?
    case Drop(t) => t in s.aws
  }

  function PollDo(s: System, tlp: Tlp): System {
    var (c, mem, posted) := PollSpec(s.c, s.mem, tlp);
    var r := s.(c := c, mem := mem, polled := s.polled + [tlp], posted := s.posted + Listed(posted));
    if s.c.awaiter == None || s.c.awaiter.value !in s.aws then r
    else if s.c.out.size == 0 then
      var q := r.(singleAt := s.singleAt + [|s.polled|], latestAt := Some(|s.polled|));
      if posted == None || posted.value !in s.aws then q
      else q.(aws := s.aws[posted.value := s.aws[posted.value].(phase := Given(|s.polled|, 1))])
    else
      var q := r.(stored := if c.batchFull == s.c.batchFull then s.stored + 1 else s.stored);
      if posted == None || posted.value !in s.aws then q else Completed(q, posted.value, s.c.out, c.count)
  }

  /** The batch of `t` is complete: its owner will find `n` packets in its buffer. */
  function Completed(s: System, t: nat, out: Span, n: nat): System
    requires t in s.aws
  {
    var a := s.aws[t];
    if out.data == None || out.data.value !in s.mem || n > |s.mem[out.data.value]| || !a.phase.Waits? then s
    else
      s.(aws := s.aws[t := a.(phase := Given(a.phase.since, n))],
         batches := s.batches + [Batched(a.phase.since, a.asked, a.span.size, s.mem[out.data.value][..n])])
  }

  /** The awaiter's destructor. */
  function Ended(s: System, t: nat): System
    requires t in s.aws
  {
    var a := s.aws[t];
    var c := if a.batch then DestroyBatchSpec(s.c, a.span)
             else DestroyWaitSpec(s.c, if a.phase.Returned? then None else Some(t));
    s.(c := c, aws := s.aws - {t})
  }

  /** `await_resume`: the result is read. */
  function Noted(s: System, t: nat): System
    requires t in s.aws
  {
    if s.aws[t].batch then s.(counts := s.counts[t := s.c.count])
    else if s.latestAt.Some? then s.(seen := s.seen[t := s.latestAt.value])
    else s
  }

  function Do(s: System, u: Use): System
    requires Possible(s, u)
  {
    match u
    case Poll(tlp) => PollDo(s, tlp)
    case Wait(t) =>
      var (ok, c) := WaitSpec(s.c, t);
      s.(c := c, aws := s.aws[t := Awaiter(false, NO_SPAN, 0, if ok then Waits(|s.polled|) else Returned)])
    case Batch(t, span, asked) =>
      var (ok, c) := BatchSpec(s.c, span, asked, t);
      s.(c := c, aws := s.aws[t := Awaiter(true, span, asked, if ok then Waits(|s.polled|) else Returned)])
    case Resume(t) => Ended(Noted(s, t), t)
    case Drop(t) => Ended(s, t)
  }

  function DoAll(s: System, us: seq<Use>): Option<System>
    decreases |us|
  {
    if us == [] then Some(s)
    else if !Possible(s, us[0]) then None
    else DoAll(Do(s, us[0]), us[1..])
  }

  // ---------------------------------------------------------------------------
  // What every run keeps
  // ---------------------------------------------------------------------------

  /** Whoever is in the slot waits; a waiting batch has room, needs more packets, and holds those
      that came since it began. */
  ghost predicate SlotInv(s: System) {
    && (s.c.awaiter == None ==> s.c.out == NO_SPAN)
    && (s.c.awaiter.Some? ==>
          && s.c.awaiter.value in s.aws
          && var a := s.aws[s.c.awaiter.value];
          && a.phase.Waits? && a.span == s.c.out && a.batch == (s.c.out.size > 0)
          && (!a.batch ==> a.span == NO_SPAN)
          && (a.batch ==> s.c.min == Clamp(a.asked, a.span.size) && BufferInv(s, a.phase.since)))
  }

  ghost predicate BufferInv(s: System, since: nat) {
    && s.c.out.data.Some? && s.c.out.data.value in s.mem && |s.mem[s.c.out.data.value]| == s.c.out.size
    && s.c.count < s.c.min <= s.c.out.size && since + s.c.count == |s.polled|
    && s.mem[s.c.out.data.value][..s.c.count] == s.polled[since..]
  }

  ghost predicate CountInv(s: System) {
    && s.c.batchFull == 0
    && |s.polled| == |s.singleAt| + s.stored + s.c.noConsumer
    && (forall i :: 0 <= i < |s.batches| ==> BatchOk(s.batches[i], s.polled))
    && (s.latestAt.Some? ==> s.latestAt.value < |s.polled| && s.c.latest == s.polled[s.latestAt.value])
  }

  /** A completed batch is as many consecutive packets as asked for, as far as that is possible. */
  ghost predicate BatchOk(b: Batched, polled: seq<Tlp>) {
    && 1 <= |b.got| <= b.size && (1 <= b.asked <= b.size ==> |b.got| == b.asked)
    && (b.asked == 0 ==> |b.got| == 1) && (b.asked > b.size ==> |b.got| == b.size)
    && b.first + |b.got| <= |polled| && b.got == polled[b.first..b.first + |b.got|]
  }

  /** Where the packets not yet given to anybody begin. */
  function Fresh(s: System): nat {
    if s.c.awaiter.Some? && s.c.awaiter.value in s.aws && s.c.out.size > 0 && s.aws[s.c.awaiter.value].phase.Waits?
    then s.aws[s.c.awaiter.value].phase.since else |s.polled|
  }

  predicate Outside(at: nat, b: Batched) {
    at < b.first || b.first + |b.got| <= at
  }

  /** Single deliveries and batches take packets in order and never the same one. */
  ghost predicate FateInv(s: System) {
    && (forall i, j :: 0 <= i < j < |s.singleAt| ==> s.singleAt[i] < s.singleAt[j])
    && (forall i, j :: 0 <= i < j < |s.batches| ==> s.batches[i].first + |s.batches[i].got| <= s.batches[j].first)
    && (forall i, j :: 0 <= i < |s.singleAt| && 0 <= j < |s.batches| ==> Outside(s.singleAt[i], s.batches[j]))
    && (forall i :: 0 <= i < |s.singleAt| ==> s.singleAt[i] < Fresh(s))
    && (forall j :: 0 <= j < |s.batches| ==> s.batches[j].first + |s.batches[j].got| <= Fresh(s))
  }

  ghost predicate Inv(s: System) {
    SlotInv(s) && CountInv(s) && FateInv(s)
  }

  lemma ClampBounds(asked: nat, size: nat)
    requires size > 0
    ensures 1 <= Clamp(asked, size) <= size
  {
  }

  /** The packet goes behind those already in the batch. */
  lemma Stored(s: System, tlp: Tlp)
    requires SlotInv(s) && s.c.awaiter.Some? && s.c.out.size > 0
    ensures var b, k, mem := s.c.out.data.value, s.c.count, Written(s.mem, s.c.out, s.c.count, tlp);
      && b in mem && |mem[b]| == s.c.out.size
      && mem[b][..k + 1] == (s.polled + [tlp])[s.aws[s.c.awaiter.value].phase.since..]
  {
    var b, k := s.c.out.data.value, s.c.count;
    var mem := Written(s.mem, s.c.out, k, tlp);
    var since := s.aws[s.c.awaiter.value].phase.since;
    assert mem[b][..k + 1] == s.mem[b][..k] + [tlp];
    assert (s.polled + [tlp])[since..] == s.polled[since..] + [tlp];
  }

  /** What happened so far is not changed by one more arrival. */
  lemma OldBatches(s: System, tlp: Tlp)
    requires CountInv(s)
    ensures forall i :: 0 <= i < |s.batches| ==> BatchOk(s.batches[i], s.polled + [tlp])
  {
    forall i | 0 <= i < |s.batches|
      ensures BatchOk(s.batches[i], s.polled + [tlp])
    {
      var b := s.batches[i];
      assert (s.polled + [tlp])[b.first..b.first + |b.got|] == s.polled[b.first..b.first + |b.got|];
    }
  }

  lemma DroppedKeeps(s: System, tlp: Tlp)
    requires Inv(s) && s.c.awaiter == None
    ensures Inv(PollDo(s, tlp))
  {
    OldBatches(s, tlp);
  }

  lemma SingleKeeps(s: System, tlp: Tlp)
    requires Inv(s) && s.c.awaiter.Some? && s.c.out.size == 0
    ensures Inv(PollDo(s, tlp))
  {
    OldBatches(s, tlp);
  }

  /** One more packet in the batch, which is not complete yet. */
  lemma StoredKeeps(s: System, tlp: Tlp)
    requires Inv(s) && s.c.awaiter.Some? && s.c.out.size > 0 && s.c.count + 1 < s.c.min
    ensures Inv(PollDo(s, tlp))
  {
    OldBatches(s, tlp);
    Stored(s, tlp);
  }

  /** The last packet of a batch: the slot is empty again and the batch is in the history. */
  lemma CompletedShape(s: System, tlp: Tlp)
    requires SlotInv(s) && s.c.awaiter.Some? && s.c.out.size > 0 && s.c.count + 1 >= s.c.min && s.c.batchFull == 0
    ensures var a, t, all := s.aws[s.c.awaiter.value], PollDo(s, tlp), s.polled + [tlp];
      var b := Batched(a.phase.since, a.asked, a.span.size, all[a.phase.since..]);
      && t.c.awaiter == None && t.c.out == NO_SPAN && t.c.batchFull == 0 && t.c.noConsumer == s.c.noConsumer
      && t.c.latest == s.c.latest && t.latestAt == s.latestAt && t.singleAt == s.singleAt && t.stored == s.stored + 1
      && t.polled == all && t.batches == s.batches + [b] && BatchOk(b, all) && b.first + |b.got| == |all|
  {
    var a, all := s.aws[s.c.awaiter.value], s.polled + [tlp];
    Stored(s, tlp);
    var b := Batched(a.phase.since, a.asked, a.span.size, all[a.phase.since..]);
    assert all[b.first..b.first + |b.got|] == b.got;
  }

  lemma CompletedKeeps(s: System, tlp: Tlp)
    requires Inv(s) && s.c.awaiter.Some? && s.c.out.size > 0 && s.c.count + 1 >= s.c.min
    ensures Inv(PollDo(s, tlp))
  {
    CompletedShape(s, tlp);
    OldBatches(s, tlp);
  }

  lemma PollKeeps(s: System, tlp: Tlp)
    requires Inv(s)
    ensures Inv(PollDo(s, tlp))
  {
    if s.c.awaiter == None {
      DroppedKeeps(s, tlp);
    } else if s.c.out.size == 0 {
      SingleKeeps(s, tlp);
    } else if s.c.count + 1 < s.c.min {
      StoredKeeps(s, tlp);
    } else {
      CompletedKeeps(s, tlp);
    }
  }

  lemma EndKeeps(s: System, t: nat)
    requires Inv(s) && t in s.aws
    ensures Inv(Ended(s, t))
  {
  }

  lemma WaitKeeps(s: System, t: nat)
    requires Inv(s) && Possible(s, Wait(t))
    ensures Inv(Do(s, Wait(t)))
  {
  }

  lemma BatchKeeps(s: System, t: nat, span: Span, asked: nat)
    requires Inv(s) && Possible(s, Batch(t, span, asked))
    ensures Inv(Do(s, Batch(t, span, asked)))
  {
    if span.size > 0 {
      ClampBounds(asked, span.size);
      assert s.mem[span.data.value][..0] == s.polled[|s.polled|..];
    }
  }

  lemma NotedKeeps(s: System, t: nat)
    requires Inv(s) && t in s.aws
    ensures Inv(Noted(s, t)) && Noted(s, t).aws == s.aws && Noted(s, t).c == s.c
  {
    var r := Noted(s, t);
    SameRun(s, r);
  }

  /** What was read or counted plays no part in the invariant. */
  lemma SameRun(s: System, r: System)
    requires Inv(s) && r.c == s.c && r.mem == s.mem && r.aws == s.aws && r.polled == s.polled
        && r.latestAt == s.latestAt
    requires r.singleAt == s.singleAt && r.batches == s.batches && r.stored == s.stored
    ensures Inv(r)
  {
    assert Fresh(r) == Fresh(s);
  }

  lemma UseKeeps(s: System, u: Use)
    requires Inv(s) && Possible(s, u)
    ensures Inv(Do(s, u))
  {
    match u
    case Poll(tlp) => PollKeeps(s, tlp);
    case Wait(t) => WaitKeeps(s, t);
    case Batch(t, span, asked) => BatchKeeps(s, t, span, asked);
    case Resume(t) =>
      NotedKeeps(s, t);
      EndKeeps(Noted(s, t), t);
    case Drop(t) => EndKeeps(s, t);
  }

  lemma {:induction false} RunKeeps(s: System, us: seq<Use>)
    requires Inv(s)
    ensures DoAll(s, us).Some? ==> Inv(DoAll(s, us).value)
    decreases |us|
  {
    if us != [] && Possible(s, us[0]) {
      UseKeeps(s, us[0]);
      RunKeeps(Do(s, us[0]), us[1..]);
    }
  }

  /** In every run each polled packet was delivered alone, stored in the current batch or
      counted as having no consumer; the batch-full counter stays zero; and every completed batch
      is consecutive packets in order of arrival: as many as its owner asked for, but at least
      one and at most what its buffer holds. */
  lemma EveryPacketAccounted(mem: Memory, us: seq<Use>)
    ensures DoAll(Start(mem), us).Some? ==>
      var s := DoAll(Start(mem), us).value;
      && |s.polled| == |s.singleAt| + s.stored + s.c.noConsumer
      && s.c.batchFull == 0
      && forall i :: 0 <= i < |s.batches| ==> BatchOk(s.batches[i], s.polled)
  {
    RunKeeps(Start(mem), us);
  }

  /** No packet is delivered twice: single deliveries and batches follow the order of arrival
      and never share a packet. */
  lemma NoPacketTwice(mem: Memory, us: seq<Use>)
    ensures DoAll(Start(mem), us).Some? ==>
      var s := DoAll(Start(mem), us).value;
      && (forall i, j :: 0 <= i < j < |s.singleAt| ==> s.singleAt[i] < s.singleAt[j])
      && (forall i, j :: 0 <= i < j < |s.batches| ==> s.batches[i].first + |s.batches[i].got| <= s.batches[j].first)
      && forall i, j :: 0 <= i < |s.singleAt| && 0 <= j < |s.batches| ==> Outside(s.singleAt[i], s.batches[j])
  {
    RunKeeps(Start(mem), us);
  }

  // ---------------------------------------------------------------------------
  // Whose wait ends, and why
  // ---------------------------------------------------------------------------

  /** The destructor of `b` takes the slot away from the waiting `t` exactly when `b` is a batch
      awaiter whose span has the address of `t`'s: two batches on one buffer, or an empty span
      without an address against any single wait. */
  lemma WaitTakenExactly(mem: Memory, us: seq<Use>, s: System, t: nat, b: nat)
    requires DoAll(Start(mem), us) == Some(s) && s.c.awaiter == Some(t) && b in s.aws && b != t
    ensures t in s.aws && s.aws[t].phase.Waits?
    ensures var r := Do(s, Drop(b));
      && t in r.aws && r.aws[t].phase.Waits?
      && (r.c.awaiter != Some(t) <==> s.aws[b].batch && s.aws[b].span.data == s.aws[t].span.data)
      && (!s.aws[t].batch ==> s.aws[t].span.data == None)
  {
    RunKeeps(Start(mem), us);
  }

  /** Batches have buffers that are not empty and that no other awaiter alive has. */
  predicate Unshared(s: System, u: Use) {
    u.Batch? ==> u.span.size > 0 && forall b :: b in s.aws && s.aws[b].batch ==> s.aws[b].span.data != u.span.data
  }

  predicate AllUnshared(s: System, us: seq<Use>)
    decreases |us|
  {
    us != [] && Possible(s, us[0]) ==> Unshared(s, us[0]) && AllUnshared(Do(s, us[0]), us[1..])
  }

  ghost predicate OwnersInv(s: System) {
    && (forall t :: t in s.aws && s.aws[t].phase.Waits? ==> s.c.awaiter == Some(t))
    && (forall b :: b in s.aws && s.aws[b].batch ==> s.aws[b].span.data.Some?)
    && (forall a, b :: a in s.aws && b in s.aws && a != b && s.aws[a].batch && s.aws[b].batch ==>
          s.aws[a].span.data != s.aws[b].span.data)
  }

  lemma OwnersEnd(s: System, t: nat)
    requires Inv(s) && OwnersInv(s) && t in s.aws
    ensures OwnersInv(Ended(s, t))
  {
  }

  lemma OwnersPoll(s: System, tlp: Tlp)
    requires Inv(s) && OwnersInv(s)
    ensures OwnersInv(PollDo(s, tlp))
  {
    var r := PollDo(s, tlp);
    if s.c.awaiter.Some? {
      PollAwaiters(s, tlp);
      if s.c.out.size > 0 {
        CompletedSlot(s, tlp);
      }
    }
  }

  /** Polling changes no awaiter but the one in the slot, and that one's phase only. */
  lemma PollAwaiters(s: System, tlp: Tlp)
    requires SlotInv(s) && s.c.awaiter.Some?
    ensures var r, t := PollDo(s, tlp), s.c.awaiter.value;
      && r.aws.Keys == s.aws.Keys && (forall d :: d in s.aws && d != t ==> r.aws[d] == s.aws[d])
      && r.aws[t].(phase := Returned) == s.aws[t].(phase := Returned)
  {
  }

  lemma CompletedSlot(s: System, tlp: Tlp)
    requires SlotInv(s) && s.c.awaiter.Some? && s.c.out.size > 0
    ensures var r, t := PollDo(s, tlp), s.c.awaiter.value; r.aws[t].phase.Waits? ==> r.c.awaiter == Some(t)
  {
    Stored(s, tlp);
  }

  lemma OwnersBegin(s: System, u: Use)
    requires Inv(s) && OwnersInv(s) && Possible(s, u) && Unshared(s, u) && (u.Wait? || u.Batch?)
    ensures OwnersInv(Do(s, u))
  {
  }

  lemma OwnersKeep(s: System, u: Use)
    requires Inv(s) && OwnersInv(s) && Possible(s, u) && Unshared(s, u)
    ensures OwnersInv(Do(s, u))
  {
    match u
    case Poll(tlp) => OwnersPoll(s, tlp);
    case Resume(t) =>
      NotedKeeps(s, t);
      OwnersEnd(Noted(s, t), t);
    case Drop(t) => OwnersEnd(s, t);
    case _ => OwnersBegin(s, u);
  }

  lemma {:induction false} OwnersRun(s: System, us: seq<Use>)
    requires Inv(s) && OwnersInv(s) && AllUnshared(s, us)
    ensures DoAll(s, us).Some? ==> OwnersInv(DoAll(s, us).value)
    decreases |us|
  {
    if us != [] && Possible(s, us[0]) {
      UseKeeps(s, us[0]);
      OwnersKeep(s, us[0]);
      OwnersRun(Do(s, us[0]), us[1..]);
    }
  }

  /** In every run whose batches have buffers that are not empty and not shared, an awaiter that
      was registered and neither posted nor destroyed is still in the channel's slot, and the
      next use changes that only by posting it or by destroying that very awaiter. */
  lemma WaitEndsOnlyByOwner(mem: Memory, us: seq<Use>, s: System, t: nat, u: Use)
    requires DoAll(Start(mem), us) == Some(s) && AllUnshared(Start(mem), us)
    requires t in s.aws && s.aws[t].phase.Waits? && Possible(s, u) && Unshared(s, u)
    ensures s.c.awaiter == Some(t)
    ensures var r := Do(s, u);
      || (t in r.aws && r.aws[t] == s.aws[t] && r.c.awaiter == Some(t))
      || (u.Poll? && t in r.aws && r.aws[t].phase.Given?)
      || u == Drop(t)
  {
    RunKeeps(Start(mem), us);
    OwnersRun(Start(mem), us);
    UseKeeps(s, u);
    OwnersKeep(s, u);
    StillThere(s, u, t);
  }

  /** An awaiter leaves or changes only by being posted, resumed or destroyed. */
  lemma StillThere(s: System, u: Use, t: nat)
    requires Inv(s) && Possible(s, u) && t in s.aws && s.aws[t].phase.Waits?
    ensures u != Drop(t) ==>
      && t in Do(s, u).aws
      && (Do(s, u).aws[t] == s.aws[t] || (u.Poll? && Do(s, u).aws[t].phase.Given?))
  {
  }

  /** Awaiting a batch with an empty span returns at once, and its destructor takes the slot of a
      coroutine that waits for a single packet; that coroutine then waits for ever. */
  lemma EmptySpanTakesSingle(mem: Memory, asked: nat)
    ensures var r := DoAll(Start(mem), [Wait(0), Batch(1, NO_SPAN, asked), Drop(1)]);
      && r.Some? && r.value.aws.Keys == {0} && r.value.aws[0].phase.Waits? && r.value.c.awaiter == None
  {
    var us := [Wait(0), Batch(1, NO_SPAN, asked), Drop(1)];
    var s1 := Do(Start(mem), Wait(0));
    var s2 := Do(s1, Batch(1, NO_SPAN, asked));
    assert us[1..] == [Batch(1, NO_SPAN, asked), Drop(1)] && us[1..][1..] == [Drop(1)];
    assert DoAll(Do(s2, Drop(1)), []) == Some(Do(s2, Drop(1)));
    assert DoAll(s2, [Drop(1)]) == Some(Do(s2, Drop(1)));
  }

  // ---------------------------------------------------------------------------
  // What a resumed waiter reads
  // ---------------------------------------------------------------------------

  /** The use delivers a single packet. */
  predicate DeliversSingle(s: System, u: Use) {
    u.Poll? && s.c.awaiter.Some? && s.c.awaiter.value in s.aws && s.c.out.size == 0
  }

  predicate AnotherSingle(s: System, us: seq<Use>)
    decreases |us|
  {
    us != [] && Possible(s, us[0]) && (DeliversSingle(s, us[0]) || AnotherSingle(Do(s, us[0]), us[1..]))
  }

  lemma LatestStep(s: System, u: Use)
    requires Inv(s) && Possible(s, u)
    ensures |Do(s, u).polled| >= |s.polled|
    ensures Do(s, u).latestAt == if DeliversSingle(s, u) then Some(|s.polled|) else s.latestAt
  {
  }

  lemma {:induction false} LatestOf(s: System, us: seq<Use>, u: System)
    requires Inv(s) && DoAll(s, us) == Some(u)
    ensures |u.polled| >= |s.polled|
    ensures if AnotherSingle(s, us) then u.latestAt.Some? && u.latestAt.value >= |s.polled|
        else u.latestAt == s.latestAt
    decreases |us|
  {
    if us != [] {
      UseKeeps(s, us[0]);
      LatestStep(s, us[0]);
      LatestOf(Do(s, us[0]), us[1..], u);
    }
  }

  /** A single waiter that was posted with arrival `k` reads exactly that packet when it resumes if,
      and only if, no other single packet was delivered on the channel in the meantime. */
  lemma OwnPacket(mem: Memory, before: seq<Use>, s: System, tlp: Tlp, t: nat, after: seq<Use>, u: System)
    requires DoAll(Start(mem), before) == Some(s) && s.c.awaiter == Some(t) && s.c.out.size == 0
    requires DoAll(Do(s, Poll(tlp)), after) == Some(u)
    requires t in Do(s, Poll(tlp)).aws && t in u.aws && u.aws[t] == Do(s, Poll(tlp)).aws[t]
    ensures u.aws[t].phase == Given(|s.polled|, 1) && !u.aws[t].batch
    ensures var r := Do(u, Resume(t));
      && t in r.seen && (r.seen[t] == |s.polled| <==> !AnotherSingle(Do(s, Poll(tlp)), after))
      && r.seen[t] < |u.polled| && u.c.latest == u.polled[r.seen[t]]
  {
    RunKeeps(Start(mem), before);
    UseKeeps(s, Poll(tlp));
    LatestStep(s, Poll(tlp));
    LatestOf(Do(s, Poll(tlp)), after, u);
    RunKeeps(Do(s, Poll(tlp)), after);
  }

  /** A run in which that goes wrong: waiter 0 was posted with arrival 0 but resumes after waiter 1
      was posted with arrival 1, and reads arrival 1. */
  lemma LateWaiterReadsAnother(mem: Memory, a: Tlp, b: Tlp)
    ensures var r := DoAll(Start(mem), [Wait(0), Poll(a), Wait(1), Poll(b), Resume(0)]);
      && r.Some? && r.value.polled == [a, b] && r.value.singleAt == [0, 1]
      && 0 in r.value.seen && r.value.seen[0] == 1
  {
    var us := [Wait(0), Poll(a), Wait(1), Poll(b), Resume(0)];
    var s2 := Do(Do(Start(mem), Wait(0)), Poll(a));
    assert us[1..][1..] == [Wait(1), Poll(b), Resume(0)];
    SecondDelivery(s2, a, b);
  }

  lemma SecondDelivery(s: System, a: Tlp, b: Tlp)
    requires s.c.awaiter == None && s.c.out == NO_SPAN && s.polled == [a] && s.singleAt == [0]
    requires s.aws == map[0 := Awaiter(false, NO_SPAN, 0, Given(0, 1))]
    ensures var r := DoAll(s, [Wait(1), Poll(b), Resume(0)]);
      && r.Some? && r.value.polled == [a, b] && r.value.singleAt == [0, 1]
      && 0 in r.value.seen && r.value.seen[0] == 1
  {
    var s1 := Do(s, Wait(1));
    var s2 := Do(s1, Poll(b));
    assert [Wait(1), Poll(b), Resume(0)][1..] == [Poll(b), Resume(0)] && [Poll(b), Resume(0)][1..] == [Resume(0)];
    assert DoAll(Do(s2, Resume(0)), []) == Some(Do(s2, Resume(0)));
    assert DoAll(s2, [Resume(0)]) == Some(Do(s2, Resume(0)));
  }

  /** Only a coroutine that begins a single wait before it resumes can cost it its packet. */
  lemma {:induction false} NoWaitNoSingle(s: System, us: seq<Use>)
    requires Inv(s) && (s.c.awaiter == None || s.c.out.size > 0)
    requires forall i :: 0 <= i < |us| ==> !us[i].Wait?
    ensures !AnotherSingle(s, us)
    decreases |us|
  {
    if us != [] && Possible(s, us[0]) {
      UseKeeps(s, us[0]);
      assert forall i :: 0 <= i < |us[1..]| ==> us[1..][i] == us[i + 1];
      NoSingleWait(s, us[0]);
      NoWaitNoSingle(Do(s, us[0]), us[1..]);
    }
  }

  lemma NoSingleWait(s: System, u: Use)
    requires Inv(s) && Possible(s, u) && (s.c.awaiter == None || s.c.out.size > 0) && !u.Wait?
    ensures Do(s, u).c.awaiter == None || Do(s, u).c.out.size > 0
  {
  }

  predicate BeginsBatch(s: System, u: Use) {
    u.Batch? && s.c.awaiter == None && u.span.size > 0
  }

  predicate AnotherBatch(s: System, us: seq<Use>)
    decreases |us|
  {
    us != [] && Possible(s, us[0]) && (BeginsBatch(s, us[0]) || AnotherBatch(Do(s, us[0]), us[1..]))
  }

  lemma CountStep(s: System, u: Use)
    requires Inv(s) && Possible(s, u) && (s.c.awaiter == None || s.c.out.size == 0) && !BeginsBatch(s, u)
    ensures Do(s, u).c.count == s.c.count && (Do(s, u).c.awaiter == None || Do(s, u).c.out.size == 0)
  {
  }

  lemma {:induction false} CountStays(s: System, us: seq<Use>, u: System)
    requires Inv(s) && (s.c.awaiter == None || s.c.out.size == 0)
    requires DoAll(s, us) == Some(u) && !AnotherBatch(s, us)
    ensures u.c.count == s.c.count
    decreases |us|
  {
    if us != [] {
      UseKeeps(s, us[0]);
      CountStep(s, us[0]);
      CountStays(Do(s, us[0]), us[1..], u);
    }
  }

  /** A waiting awaiter is given its packets exactly when its coroutine is posted, and every poll
      posts at most one coroutine; nothing else posts anybody. */
  lemma GivenExactly(mem: Memory, us: seq<Use>, s: System, u: Use, t: nat)
    requires DoAll(Start(mem), us) == Some(s) && Possible(s, u) && t in s.aws && s.aws[t].phase.Waits?
    ensures var r := Do(s, u);
      && (r.posted == s.posted || (u.Poll? && s.c.awaiter.Some? && r.posted == s.posted + [s.c.awaiter.value]))
      && (r.posted == s.posted + [t] <==> t in r.aws && r.aws[t].phase.Given?)
  {
    RunKeeps(Start(mem), us);
    if u.Poll? {
      PollGives(s, u.tlp, t);
    }
  }

  lemma PollGives(s: System, tlp: Tlp, t: nat)
    requires Inv(s) && t in s.aws && s.aws[t].phase.Waits?
    ensures var r := PollDo(s, tlp);
      && (r.posted == s.posted || (s.c.awaiter.Some? && r.posted == s.posted + [s.c.awaiter.value]))
      && (r.posted == s.posted + [t] <==> t in r.aws && r.aws[t].phase.Given?)
  {
    var r := PollDo(s, tlp);
    PollPosts(s.c, s.mem, tlp);
    assert s.posted + [] == s.posted;
    assert (s.posted + [t])[|s.posted|] == t;
    if s.c.awaiter.Some? {
      assert (s.posted + [s.c.awaiter.value])[|s.posted|] == s.c.awaiter.value;
      if s.c.out.size > 0 {
        Stored(s, tlp);
      }
    }
  }

  /** The channel's count, right after a batch was completed, is the number of its packets. */
  lemma CompletedCount(s: System, tlp: Tlp)
    requires Inv(s) && s.c.awaiter.Some? && s.c.out.size > 0 && s.c.count + 1 >= s.c.min
    ensures var t, r := s.c.awaiter.value, PollDo(s, tlp);
      && t in r.aws && r.aws[t].batch && r.c.awaiter == None
      && r.aws[t].phase.Given? && r.aws[t].phase.n == r.c.count
  {
    Stored(s, tlp);
  }

  /** A batch waiter whose batch was completed is given the number of its own packets when it
      resumes, provided no other batch began on the channel in the meantime. */
  lemma OwnCount(mem: Memory, before: seq<Use>, s: System, tlp: Tlp, t: nat, after: seq<Use>, u: System)
    requires DoAll(Start(mem), before) == Some(s) && s.c.awaiter == Some(t)
    requires s.c.out.size > 0 && s.c.count + 1 >= s.c.min
    requires DoAll(Do(s, Poll(tlp)), after) == Some(u) && !AnotherBatch(Do(s, Poll(tlp)), after)
    requires t in Do(s, Poll(tlp)).aws && t in u.aws && u.aws[t] == Do(s, Poll(tlp)).aws[t]
    ensures u.aws[t].batch && u.aws[t].phase.Given?
    ensures var r := Do(u, Resume(t)); t in r.counts && r.counts[t] == u.aws[t].phase.n
  {
    RunKeeps(Start(mem), before);
    UseKeeps(s, Poll(tlp));
    CompletedCount(s, tlp);
    CountStays(Do(s, Poll(tlp)), after, u);
  }
}
