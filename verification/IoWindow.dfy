/** How long an answered request's response is safe: fewer new requests than the allocator's
    reuse distance cannot overwrite it. */
module IoWindow {
  import opened Prelude
  import opened TagAllocator
  import opened Streams
  import opened IoEngines
  import opened IoProtocol

  /** The uses of the tag allocator in one step. */
  function TagUses(s: World, step: Step): seq<TagUse>
    requires Enabled(s, step)
  {
    match step
    case Submit(r) =>
      var (t, sent, _) := SubmitSpec(s.e, r, RequestPacket(r));
      if t != 0 && !sent then [Allocate, Release(t)] else [Allocate]
    case Poll =>
      var p := s.rx[0];
      if !p.stream && p.tag <= TAGS && s.e.tags.active[p.tag] then [Release(p.tag)] else []
    case _ => []
  }

  function RunUses(s: World, steps: seq<Step>, t: World): seq<TagUse>
    requires Runs(s, steps, t)
    decreases |steps|
  {
    if steps == [] then [] else TagUses(s, steps[0]) + RunUses(Apply(s, steps[0]), steps[1..], t)
  }

  lemma StepUses(s: World, step: Step)
    requires Enabled(s, step)
    ensures Valid(TagUses(s, step)) && EngineOk(Apply(s, step).e)
    ensures After(s.e.tags, TagUses(s, step)) == Apply(s, step).e.tags
  {
    match step
    case Submit(r) =>
      RefusedExactly(s.e, r, RequestPacket(r));
      AllocateExact(s.e.tags);
      var t := SubmitSpec(s.e, r, RequestPacket(r)).0;
      AfterOne(s.e.tags, Allocate);
      if TagUses(s, step) != [Allocate] {
        assert [Allocate, Release(t)][..1] == [Allocate];
      }
    case Poll =>
      PollTouches(s.e, s.rx[0]);
      AfterOne(s.e.tags, Release(if s.rx[0].tag <= TAGS then s.rx[0].tag else 0));
    case _ =>
  }

  lemma AfterOne(s: Tags, u: TagUse)
    requires TagsOk(s) && (u.Release? ==> u.t <= TAGS)
    ensures After(s, [u]) == TagAllocator.Do(s, u)
  {
    assert [u][..0] == [];
    assert After(s, []) == s;
  }

  lemma {:induction false} AfterConcat(s: Tags, p: seq<TagUse>, q: seq<TagUse>)
    requires TagsOk(s) && Valid(p) && Valid(q)
    ensures Valid(p + q) && After(s, p + q) == After(After(s, p), q)
    decreases |q|
  {
    if q == [] {
      assert p + q == p;
    } else {
      var n := |q| - 1;
      assert forall i :: 0 <= i < |q[..n]| ==> q[..n][i] == q[i];
      AfterConcat(s, p, q[..n]);
      assert (p + q)[..|p + q| - 1] == p + q[..n];
    }
  }

  lemma {:induction false} RunIs(s: World, steps: seq<Step>, t: World)
    requires EngineOk(s.e) && Runs(s, steps, t)
    ensures Valid(RunUses(s, steps, t)) && EngineOk(t.e) && After(s.e.tags, RunUses(s, steps, t)) == t.e.tags
    decreases |steps|
  {
    if steps != [] {
      StepUses(s, steps[0]);
      RunIs(Apply(s, steps[0]), steps[1..], t);
      AfterConcat(s.e.tags, TagUses(s, steps[0]), RunUses(Apply(s, steps[0]), steps[1..], t));
    }
  }

  /** The next allocation returns `t`. */
  ghost predicate Gives(s: Tags, t: nat)
    requires TagsOk(s)
  {
    AllocateSpec(s).0 == t
  }

  /** After the uses `x`, the next of `us` hands out `t`. */
  ghost predicate HandsOut(s: Tags, us: seq<TagUse>, x: seq<TagUse>, t: nat)
    requires TagsOk(s)
  {
    Valid(x) && |x| < |us| && us[..|x|] == x && us[|x|] == Allocate && Gives(After(s, x), t)
  }

  lemma Together(p: seq<TagUse>, q: seq<TagUse>)
    requires Valid(p) && Valid(q)
    ensures Valid(p + q)
  {
  }

  lemma HandsOutLater(s: Tags, p: seq<TagUse>, q: seq<TagUse>, x: seq<TagUse>, t: nat)
    requires TagsOk(s) && Valid(p) && HandsOut(After(s, p), q, x, t)
    ensures HandsOut(s, p + q, p + x, t)
  {
    Together(p, x);
    AfterConcat(s, p, x);
    assert (p + q)[..|p + x|] == p + x;
  }

  lemma PollMarks(s: World, r: nat)
    requires Inv(s) && s.rx != [] && r in s.requests
    ensures r in PollStep(s).requests
    ensures PollStep(s).requests[r].tag == s.requests[r].tag
    ensures PollStep(s).requests[r] == s.requests[r] || !PollStep(s).requests[r].Posted?
        || !PollStep(s).requests[r].reissued
  {
    if !s.rx[0].stream {
      AnswerMatches(s);
    }
  }

  lemma SubmitMarks(s: World, next: nat, r: nat)
    requires EngineOk(s.e) && next !in s.requests && r in s.requests
    ensures var q, u := s.requests[r], SubmitStep(s, next);
      && r in u.requests && u.requests[r].tag == q.tag
      && (u.requests[r] == q || (Marked(u.requests[r]) && AllocateSpec(s.e.tags).0 == q.tag))
  {
  }

  lemma OtherMarks(s: World, step: Step, r: nat)
    requires Enabled(s, step) && r in s.requests && !step.Submit? && !step.Poll?
    ensures r in Apply(s, step).requests && Apply(s, step).requests[r].tag == s.requests[r].tag
    ensures Apply(s, step).requests[r] == s.requests[r] || !Apply(s, step).requests[r].Posted?
  {
  }

  predicate Marked(q: Request) {
    q.Posted? && q.reissued
  }

  /** One step marks a posted request only by handing out its tag. */
  lemma MarkedBySubmit(s: World, step: Step, r: nat)
    requires Inv(s) && Enabled(s, step) && r in s.requests
    ensures r in Apply(s, step).requests && Apply(s, step).requests[r].tag == s.requests[r].tag
    ensures !Marked(s.requests[r]) && Marked(Apply(s, step).requests[r]) ==>
      step.Submit? && AllocateSpec(s.e.tags).0 == s.requests[r].tag
  {
    match step
    case Submit(next) => SubmitMarks(s, next, r);
    case Poll => PollMarks(s, r);
    case _ => OtherMarks(s, step, r);
  }

  lemma {:induction false} ReissueSeen(s: World, steps: seq<Step>, u: World, r: nat, t: nat)
    requires Inv(s) && Runs(s, steps, u) && r in s.requests && s.requests[r].tag == t
    requires s.requests[r].Posted? ==> !s.requests[r].reissued
    requires r in u.requests && Marked(u.requests[r])
    ensures Valid(RunUses(s, steps, u))
    ensures exists x :: HandsOut(s.e.tags, RunUses(s, steps, u), x, t)
    decreases |steps|
  {
    RunIs(s, steps, u);
    var step, v := steps[0], Apply(s, steps[0]);
    StepUses(s, step);
    StepKeeps(s, step);
    MarkedBySubmit(s, step, r);
    var p, q := TagUses(s, step), RunUses(v, steps[1..], u);
    if v.requests[r].Posted? && v.requests[r].reissued {
      assert After(s.e.tags, []) == s.e.tags;
      assert HandsOut(s.e.tags, p + q, [], t);
    } else {
      RunIs(v, steps[1..], u);
      ReissueSeen(v, steps[1..], u, r, t);
      var x :| HandsOut(v.e.tags, q, x, t);
      HandsOutLater(s.e.tags, p, q, x, t);
    }
  }

  lemma {:induction false} SuccessesGrow(s: Tags, us: seq<TagUse>, n: nat)
    requires TagsOk(s) && Valid(us) && n <= |us|
    ensures Successes(s, us[..n]) <= Successes(s, us)
    decreases |us|
  {
    if n < |us| {
      var before := us[..|us| - 1];
      assert forall i :: 0 <= i < |before| ==> before[i] == us[i];
      SuccessesGrow(s, before, n);
      assert before[..n] == us[..n];
    } else {
      assert us[..n] == us;
    }
  }

  lemma {:induction false} TagKept(s: World, steps: seq<Step>, u: World, r: nat)
    requires Inv(s) && Runs(s, steps, u) && r in s.requests
    ensures r in u.requests && u.requests[r].tag == s.requests[r].tag
    decreases |steps|
  {
    if steps != [] {
      StepKeeps(s, steps[0]);
      MarkedBySubmit(s, steps[0], r);
      TagKept(Apply(s, steps[0]), steps[1..], u, r);
    }
  }

  /** A tag handed out within these uses was handed out after enough others. */
  lemma HandsOutFar(s: Tags, us: seq<TagUse>, x: seq<TagUse>, t: nat)
    requires TagsOk(s) && Valid(us) && s.last == t && HandsOut(s, us, x, t)
    ensures Successes(s, us) >= (TAGS - |Others(s, t)| + 1) / 2
  {
    var vs := x + [Allocate];
    Together(x, [Allocate]);
    assert vs[..|vs| - 1] == x && us[..|vs|] == vs;
    ReuseDistance(s, t, vs);
    SuccessesGrow(s, us, |vs|);
  }

  /** A request that was sent, with A other tags active, reads its own answer if fewer than
      ceil((255 - A) / 2) tags are handed out before its coroutine resumes, whatever the peer,
      the other requests and cancellations do meanwhile. */
  lemma SafeWindow(txCap: nat, mem: Memory, before: seq<Step>, s: World, after: seq<Step>, u: World, r: nat)
    requires Runs(Init(txCap, mem), before, s) && Runs(s, after, u)
    requires r in s.requests && s.requests[r].Waiting? && EngineOk(s.e) && s.e.tags.last == s.requests[r].tag
    requires Valid(RunUses(s, after, u))
    requires Successes(s.e.tags, RunUses(s, after, u)) < (TAGS - |Others(s.e.tags, s.requests[r].tag)| + 1) / 2
    requires r in u.requests && u.requests[r].Posted?
    ensures EngineOk(u.e) && u.requests[r].tag == s.requests[r].tag <= TAGS
    ensures ResumeSpec(u.e, s.requests[r].tag, true).body == Data(r)
  {
    InitInv(txCap, mem);
    IoProtocol.RunKeeps(Init(txCap, mem), before, s);
    WindowSafe(s, after, u, r);
  }

  lemma WindowSafe(s: World, after: seq<Step>, u: World, r: nat)
    requires Inv(s) && Runs(s, after, u)
    requires r in s.requests && s.requests[r].Waiting? && s.e.tags.last == s.requests[r].tag
    requires Valid(RunUses(s, after, u))
    requires Successes(s.e.tags, RunUses(s, after, u)) < (TAGS - |Others(s.e.tags, s.requests[r].tag)| + 1) / 2
    requires r in u.requests && u.requests[r].Posted?
    ensures EngineOk(u.e) && u.requests[r].tag == s.requests[r].tag <= TAGS
    ensures ResumeSpec(u.e, s.requests[r].tag, true).body == Data(r)
  {
    IoProtocol.RunKeeps(s, after, u);
    TagKept(s, after, u, r);
    if u.requests[r].reissued {
      MarkedLate(s, after, u, r);
    }
  }

  /** A request just sent whose tag was handed out again: enough others were handed out first. */
  lemma MarkedLate(s: World, after: seq<Step>, u: World, q: nat)
    requires Inv(s) && Runs(s, after, u) && q in s.requests && s.requests[q].Waiting?
        && s.e.tags.last == s.requests[q].tag
    requires q in u.requests && Marked(u.requests[q])
    ensures Valid(RunUses(s, after, u)) && EngineOk(s.e)
    ensures Successes(s.e.tags, RunUses(s, after, u)) >= (TAGS - |Others(s.e.tags, s.requests[q].tag)| + 1) / 2
  {
    var t := s.requests[q].tag;
    ReissueSeen(s, after, u, q, t);
    var x :| HandsOut(s.e.tags, RunUses(s, after, u), x, t);
    HandsOutFar(s.e.tags, RunUses(s, after, u), x, t);
  }

  /** Whoever empties the slot of a waiting request by ending late had its own tag handed out
      after at least as many others as the reuse distance: if every coroutine resumes, or is
      destroyed, before so many requests are sent after its own, every answer wakes its owner. */
  lemma RobberIsLate(txCap: nat, mem: Memory, before: seq<Step>, s: World, after: seq<Step>, u: World,
                     step: Step, r: nat)
    requires Runs(Init(txCap, mem), before, s) && Runs(s, after, u)
    requires r in u.requests && u.requests[r].Waiting? && Robs(u, step, r)
    requires step.r in s.requests && s.requests[step.r].Waiting? && EngineOk(s.e)
        && s.e.tags.last == s.requests[step.r].tag
    ensures Valid(RunUses(s, after, u))
    ensures Successes(s.e.tags, RunUses(s, after, u)) >= (TAGS - |Others(s.e.tags, s.requests[step.r].tag)| + 1) / 2
  {
    InitInv(txCap, mem);
    IoProtocol.RunKeeps(Init(txCap, mem), before, s);
    IoProtocol.RunKeeps(s, after, u);
    RobberIsMarked(u, step, r);
    MarkedLate(s, after, u, step.r);
  }

  /** An earlier holder of a waiting request's tag has seen its tag handed out again. */
  lemma RobberIsMarked(u: World, step: Step, r: nat)
    requires Inv(u) && Robs(u, step, r) && u.requests[r].Waiting?
    ensures Marked(u.requests[step.r])
  {
    assert u.requests[r].tag in u.issued;
  }

  /** The window can close: while a posted request's tag is the only free one, the next request
      takes it, and the first awaiter then reads something that is not its answer. */
  lemma WindowCloses(s: World, r: nat, next: nat)
    requires Inv(s) && r in s.requests && s.requests[r].Posted? && !s.requests[r].reissued && next !in s.requests
    requires forall v :: 1 <= v <= TAGS && v != s.requests[r].tag ==> s.e.tags.active[v]
    ensures var u := SubmitStep(s, next);
      && EngineOk(u.e) && Marked(u.requests[r])
      && ResumeSpec(s.e, s.requests[r].tag, true).body == Data(r)
      && ResumeSpec(u.e, s.requests[r].tag, true).body == Blank
  {
    AllocateExact(s.e.tags);
    assert !s.e.tags.active[s.requests[r].tag];
    RefusedExactly(s.e, next, RequestPacket(next));
    SubmitShape(s, next);
  }

  // ---------------------------------------------------------------------------
  // ... and it does close in a run
  // ---------------------------------------------------------------------------

  function UpTo(n: nat): (r: set<nat>)
    ensures |r| == n && forall t :: t in r <==> 1 <= t <= n
  {
    if n == 0 then {} else UpTo(n - 1) + {n}
  }

  /** Fewer tags issued than there are: one is free. All issued: all are active. */
  lemma IssuedCount(s: World)
    requires ShapeInv(s)
    ensures |s.issued| < TAGS ==> exists u :: 1 <= u <= TAGS && !s.e.tags.active[u]
    ensures |s.issued| == TAGS ==> forall u :: 1 <= u <= TAGS ==> s.e.tags.active[u]
  {
    assert |s.issued.Keys| == |s.issued|;
    CountKeys(s.e.tags.active, s.issued.Keys, TAGS);
  }

  lemma CountKeys(active: seq<bool>, keys: set<nat>, n: nat)
    requires |active| == n + 1 && (forall t :: 0 <= t <= n ==> (active[t] <==> t in keys))
        && forall t :: t in keys ==> 1 <= t <= n
    ensures |keys| < n ==> exists u :: 1 <= u <= n && !active[u]
    ensures |keys| == n ==> forall u :: 1 <= u <= n ==> active[u]
  {
    if forall u :: 1 <= u <= n ==> active[u] {
      assert UpTo(n) == keys;
    } else {
      var u :| 1 <= u <= n && !active[u];
      SubsetSize(keys, UpTo(n) - {u});
    }
  }

  /** The first `n` requests and no others, all waiting. */
  ghost predicate AllWait(requests: map<nat, Request>, n: nat) {
    (forall r: nat :: r in requests <==> r < n) && forall r :: r in requests ==> requests[r].Waiting?
  }

  /** After `n` requests. */
  ghost predicate Filled(s: World, n: nat, txCap: nat) {
    && Inv(s) && |s.issued| == |s.e.tx| == n && s.e.txCap == txCap && s.rx == [] && s.peer == multiset{}
    && AllWait(s.requests, n)
  }

  lemma WaitMore(requests: map<nat, Request>, n: nat, t: nat)
    requires AllWait(requests, n)
    ensures AllWait(Reissue(requests, t)[n := Waiting(t)], n + 1)
  {
  }

  lemma OneMore(s: World, n: nat, txCap: nat)
    requires Filled(s, n, txCap) && n < TAGS <= txCap
    ensures Enabled(s, Submit(n)) && Filled(SubmitStep(s, n), n + 1, txCap)
  {
    var (t, sent, e) := SubmitSpec(s.e, n, RequestPacket(n));
    IssuedCount(s);
    AllocateExact(s.e.tags);
    RefusedExactly(s.e, n, RequestPacket(n));
    SubmitKeeps(s, n);
    SubmitShape(s, n);
    WaitMore(s.requests, n, t);
    SentKeeps(s, n);
  }

  lemma SentKeeps(s: World, n: nat)
    requires EngineOk(s.e) && SubmitSpec(s.e, n, RequestPacket(n)).1
        && SubmitSpec(s.e, n, RequestPacket(n)).0 !in s.issued
    ensures var u := SubmitStep(s, n);
      && u.e.txCap == s.e.txCap && u.rx == s.rx && u.peer == s.peer
      && |u.issued| == |s.issued| + 1 && |u.e.tx| == |s.e.tx| + 1
  {
  }

  lemma {:induction false} Fill(n: nat, txCap: nat, mem: Memory) returns (steps: seq<Step>, s: World)
    requires n <= TAGS <= txCap
    ensures Runs(Init(txCap, mem), steps, s) && Filled(s, n, txCap)
    decreases n
  {
    if n == 0 {
      InitInv(txCap, mem);
      steps, s := [], Init(txCap, mem);
    } else {
      steps, s := Fill(n - 1, txCap, mem);
      OneMore(s, n - 1, txCap);
      IoProtocol.RunsOn(Init(txCap, mem), steps, s, Submit(n - 1));
      steps, s := steps + [Submit(n - 1)], Apply(s, Submit(n - 1));
    }
  }

  /** The peer takes the first request and answers it. */
  lemma FirstTaken(s: World, txCap: nat) returns (steps: seq<Step>, t: World)
    requires Filled(s, TAGS, txCap)
    ensures Runs(s, steps, t) && Inv(t) && t.rx != [] && !t.rx[0].stream
    ensures t.requests == s.requests && t.issued == s.issued && t.e.tags == s.e.tags
    ensures txCap >= TAGS ==> |t.e.tx| < t.e.txCap
  {
    var p := s.e.tx[0];
    TicketsHead(s.e.tx);
    OneTicket(p);
    var x := Ticket(p.tag, p.body.n);
    var s1 := Apply(s, PeerTakes);
    StepKeeps(s, PeerTakes);
    assert s1.peer == multiset{x};
    StepKeeps(s1, PeerAnswers(x, 0));
    t := Apply(s1, PeerAnswers(x, 0));
    IoProtocol.RunsOn(s, [], s, PeerTakes);
    IoProtocol.RunsOn(s, [] + [PeerTakes], s1, PeerAnswers(x, 0));
    steps := [] + [PeerTakes] + [PeerAnswers(x, 0)];
  }

  /** ... and the answer is polled. */
  lemma Answered(s: World) returns (r: nat)
    requires Inv(s) && s.rx != [] && !s.rx[0].stream && AllWait(s.requests, TAGS)
    requires forall v :: 1 <= v <= TAGS ==> s.e.tags.active[v]
    ensures var t := PollStep(s);
      && Inv(t) && r in t.requests && t.requests[r].Posted? && !t.requests[r].reissued
      && (forall q: nat :: q in t.requests <==> q < TAGS)
      && (forall v :: 1 <= v <= TAGS && v != t.requests[r].tag ==> t.e.tags.active[v])
      && t.e.tx == s.e.tx && t.e.txCap == s.e.txCap
  {
    AnswerMatches(s);
    PollKeeps(s);
    PollTouches(s.e, s.rx[0]);
    r := s.issued[s.rx[0].tag];
  }

  lemma {:induction false} RunsJoin(s: World, p: seq<Step>, t: World, q: seq<Step>, u: World)
    requires Runs(s, p, t) && Runs(t, q, u)
    ensures Runs(s, p + q, u)
    decreases |q|
  {
    if q == [] {
      assert p + q == p;
    } else {
      IoProtocol.RunsOn(s, p, t, q[0]);
      RunsJoin(s, p + [q[0]], Apply(t, q[0]), q[1..], u);
      assert p + [q[0]] + q[1..] == p + q;
    }
  }

  /** The awaiter of the answered request `r` would read a blank packet. */
  predicate Misread(u: World, r: nat) {
    && EngineOk(u.e) && r in u.requests && u.requests[r].Posted? && u.requests[r].tag <= TAGS
    && ResumeSpec(u.e, u.requests[r].tag, true).body == Blank
  }

  /** A run in which an answered request, resumed too late, reads something that is not its answer. */
  lemma WindowClosesInARun(txCap: nat, mem: Memory)
    requires txCap >= TAGS
    ensures exists steps, u, r :: Runs(Init(txCap, mem), steps, u) && Misread(u, r)
  {
    var steps, u, r := ClosingRun(txCap, mem);
  }

  /** All tags are handed out, and the answer to one request has arrived. */
  lemma AnswerInFullHouse(txCap: nat, mem: Memory) returns (steps: seq<Step>, t: World)
    requires txCap >= TAGS
    ensures Runs(Init(txCap, mem), steps, t) && Inv(t) && t.rx != [] && !t.rx[0].stream && AllWait(t.requests, TAGS)
    ensures (forall v :: 1 <= v <= TAGS ==> t.e.tags.active[v]) && |t.e.tx| < t.e.txCap
  {
    var first, s := Fill(TAGS, txCap, mem);
    IssuedCount(s);
    var more, u := FirstTaken(s, txCap);
    RunsJoin(Init(txCap, mem), first, s, more, u);
    steps, t := first + more, u;
  }

  lemma ClosingRun(txCap: nat, mem: Memory) returns (steps: seq<Step>, u: World, r: nat)
    requires txCap >= TAGS
    ensures Runs(Init(txCap, mem), steps, u) && Misread(u, r) && TakenOver(u, r)
  {
    var first, t := AnswerInFullHouse(txCap, mem);
    r := ClosesFrom(t);
    PolledThenTaken(Init(txCap, mem), first, t);
    steps, u := first + [Step.Poll] + [Submit(TAGS)], SubmitStep(PollStep(t), TAGS);
  }

  lemma ClosesFrom(t: World) returns (r: nat)
    requires Inv(t) && t.rx != [] && !t.rx[0].stream && AllWait(t.requests, TAGS)
    requires (forall v :: 1 <= v <= TAGS ==> t.e.tags.active[v]) && |t.e.tx| < t.e.txCap
    ensures EngineOk(PollStep(t).e) && Enabled(PollStep(t), Submit(TAGS))
    ensures Misread(SubmitStep(PollStep(t), TAGS), r) && TakenOver(SubmitStep(PollStep(t), TAGS), r)
  {
    r := Answered(t);
    LastTagTaken(PollStep(t), r);
  }

  lemma PolledThenTaken(start: World, steps: seq<Step>, t: World)
    requires Runs(start, steps, t) && EngineOk(t.e) && t.rx != [] && Enabled(PollStep(t), Submit(TAGS))
    ensures Runs(start, steps + [Step.Poll] + [Submit(TAGS)], SubmitStep(PollStep(t), TAGS))
  {
    IoProtocol.RunsOn(start, steps, t, Step.Poll);
    IoProtocol.RunsOn(start, steps + [Step.Poll], PollStep(t), Submit(TAGS));
  }

  lemma LastTagTaken(t: World, r: nat)
    requires Inv(t) && r in t.requests && t.requests[r].Posted? && !t.requests[r].reissued && TAGS !in t.requests
    requires (forall v :: 1 <= v <= TAGS && v != t.requests[r].tag ==> t.e.tags.active[v]) && |t.e.tx| < t.e.txCap
    ensures Enabled(t, Submit(TAGS))
    ensures Misread(SubmitStep(t, TAGS), r) && TakenOver(SubmitStep(t, TAGS), r)
  {
    WindowCloses(t, r, TAGS);
    SubmitMarks(t, TAGS, r);
    AllocateExact(t.e.tags);
    RefusedExactly(t.e, TAGS, RequestPacket(TAGS));
    SubmitShape(t, TAGS);
    SubmitKeeps(t, TAGS);
  }

  /** A later request waits with the tag of the answered request `r`. */
  ghost predicate TakenOver(u: World, r: nat) {
    && Inv(u) && r in u.requests && u.requests[r].Posted? && r != TAGS
    && TAGS in u.requests && u.requests[TAGS] == Waiting(u.requests[r].tag)
  }

  /** A request that waits although no slot holds its coroutine any more. */
  predicate Stranded(u: World, q: nat) {
    && EngineOk(u.e) && q in u.requests && u.requests[q].Waiting? && u.requests[q].tag <= TAGS
    && u.e.coros[u.requests[q].tag] == None
  }

  lemma EndingStrands(u: World, r: nat)
    requires TakenOver(u, r)
    ensures Enabled(u, Destroy(r)) && Robs(u, Destroy(r), TAGS) && Stranded(Apply(u, Destroy(r)), TAGS)
  {
  }

  /** A run in which a request loses its waker: its tag came from an answered request whose
      awaiter is destroyed only now. Its answer will wake nobody. */
  lemma WakerLostInARun(txCap: nat, mem: Memory)
    requires txCap >= TAGS
    ensures exists steps, u, q :: Runs(Init(txCap, mem), steps, u) && Stranded(u, q)
  {
    var steps, u, q := StrandingRun(txCap, mem);
  }

  lemma StrandingRun(txCap: nat, mem: Memory) returns (steps: seq<Step>, u: World, q: nat)
    requires txCap >= TAGS
    ensures Runs(Init(txCap, mem), steps, u) && Stranded(u, q)
  {
    var first, t, r := ClosingRun(txCap, mem);
    EndingStrands(t, r);
    IoProtocol.RunsOn(Init(txCap, mem), first, t, Destroy(r));
    steps, u, q := first + [Destroy(r)], Apply(t, Destroy(r)), TAGS;
  }
}
