/** The producer and the consumer of a single-producer single-consumer ring run at the same
    time. Each operation is three steps: load the counters, copy the item, store the own
    counter. A load of the other side's counter may return any value that side has already
    published since the previous load. While an item is being copied its slot may hold
    anything. Counters wrap modulo `m`, which the capacity divides. */
module SpscThreads {
  import opened Rings

  datatype Producer<T> =
    | Ready
    | Loaded(item: T, seen: nat)   // `seen`: the value of head_ it loaded
    | Copying(item: T)
    | Copied(item: T)

  datatype Consumer<T> =
    | Waiting
    | Looked(view: nat)            // `view`: the value of tail_ it loaded
    | Reading
    | Read(got: T)

  /** `pushed` and `popped` are the items whose counter stores have happened; their lengths are
      the counters without wrap-around. `known` of each side is the newest value it has loaded.
      `calls` are the arguments `push` was called with, `results` what the calls returned so far. */
  datatype State<T> = State(
    m: nat, buf: seq<T>, head: nat, tail: nat,
    prod: Producer<T>, cons: Consumer<T>,
    pushed: seq<T>, popped: seq<T>, knownHead: nat, knownTail: nat,
    calls: seq<T>, results: seq<bool>)

  datatype Step<T> =
    | PushLoad(item: T, at: nat) | PushFull | PushStart | Scribble(junk: T) | PushCopy | PushStore
    | PopLoad(at: nat) | PopEmpty | PopStart | PopCopy | PopStore

  function Init<T>(m: nat, buf: seq<T>): State<T> {
    State(m, buf, 0, 0, Ready, Waiting, [], [], 0, 0, [], [])
  }

  /** The abstract bounded queue. */
  function Queue<T>(s: State<T>): seq<T>
    requires |s.popped| <= |s.pushed|
  {
    s.pushed[|s.popped|..]
  }

  predicate Enabled<T>(s: State<T>, step: Step<T>)
    requires s.m > 0 && |s.buf| > 0
  {
    match step
    case PushLoad(_, at) => s.prod.Ready? && s.knownHead <= at <= |s.popped|
    case PushFull => s.prod.Loaded? && Diff(s.tail, s.prod.seen, s.m) >= |s.buf|
    case PushStart => s.prod.Loaded? && Diff(s.tail, s.prod.seen, s.m) < |s.buf|
    case Scribble(_) => s.prod.Copying?
    case PushCopy => s.prod.Copying?
    case PushStore => s.prod.Copied?
    case PopLoad(at) => s.cons.Waiting? && s.knownTail <= at <= |s.pushed|
    case PopEmpty => s.cons.Looked? && s.head == s.cons.view
    case PopStart => s.cons.Looked? && s.head != s.cons.view
    case PopCopy => s.cons.Reading?
    case PopStore => s.cons.Read?
  }

  function Apply<T>(s: State<T>, step: Step<T>): State<T>
    requires s.m > 0 && |s.buf| > 0 && Enabled(s, step)
  {
    match step
    case PushLoad(item, at) => s.(prod := Loaded(item, at % s.m), knownHead := at, calls := s.calls + [item])
    case PushFull => s.(prod := Ready, results := s.results + [false])
    case PushStart => s.(prod := Copying(s.prod.item))
    case Scribble(junk) => s.(buf := s.buf[s.tail % |s.buf| := junk])
    case PushCopy => s.(buf := s.buf[s.tail % |s.buf| := s.prod.item], prod := Copied(s.prod.item))
    case PushStore =>
      s.(tail := Succ(s.tail, s.m), pushed := s.pushed + [s.prod.item], prod := Ready, results := s.results + [true])
    case PopLoad(at) => s.(cons := Looked(at % s.m), knownTail := at)
    case PopEmpty => s.(cons := Waiting)
    case PopStart => s.(cons := Reading)
    case PopCopy => s.(cons := Read(s.buf[s.head % |s.buf|]))
    case PopStore => s.(head := Succ(s.head, s.m), popped := s.popped + [s.cons.got], cons := Waiting)
  }

  /** The ring's shape and the counters. */
  ghost predicate ShapeInv<T>(s: State<T>) {
    && 0 < |s.buf| < s.m && s.m % |s.buf| == 0
    && |s.popped| <= |s.pushed| <= |s.popped| + |s.buf|
    && s.tail == |s.pushed| % s.m && s.head == |s.popped| % s.m
    && s.knownHead <= |s.popped| && |s.pushed| - s.knownHead <= |s.buf|
    && |s.popped| <= s.knownTail <= |s.pushed|
  }

  /** The producer has room while it copies; the consumer has an item while it reads. */
  ghost predicate SidesInv<T>(s: State<T>)
    requires ShapeInv(s)
  {
    && (s.prod.Loaded? ==> s.prod.seen == s.knownHead % s.m)
    && (s.prod.Copying? || s.prod.Copied? ==> |s.pushed| - s.knownHead < |s.buf|)
    && (s.prod.Copied? ==> s.buf[|s.pushed| % |s.buf|] == s.prod.item)
    && (s.cons.Looked? ==> s.cons.view == s.knownTail % s.m)
    && (s.cons.Reading? || s.cons.Read? ==> |s.popped| < s.knownTail)
    && (s.cons.Read? ==> s.cons.got == s.pushed[|s.popped|])
  }

  /** Published items are in their slots, and what was popped is what was pushed. */
  ghost predicate DataInv<T>(s: State<T>)
    requires ShapeInv(s)
  {
    && (forall i :: |s.popped| <= i < |s.pushed| ==> s.buf[i % |s.buf|] == s.pushed[i])
    && s.popped == s.pushed[..|s.popped|]
  }

  /** The arguments of the calls that returned true. */
  function Accepted<T>(calls: seq<T>, results: seq<bool>): seq<T>
    requires |results| <= |calls|
  {
    if results == [] then []
    else
      var n := |results| - 1;
      Accepted(calls, results[..n]) + if results[n] then [calls[n]] else []
  }

  /** The producer works on its last call, and what it has pushed is what it accepted. */
  ghost predicate CallsInv<T>(s: State<T>) {
    && |s.calls| == |s.results| + (if s.prod.Ready? then 0 else 1)
    && (!s.prod.Ready? ==> s.prod.item == s.calls[|s.results|])
    && s.pushed == Accepted(s.calls, s.results)
  }

  ghost predicate RingInv<T>(s: State<T>) {
    ShapeInv(s) && SidesInv(s) && DataInv(s)
  }

  ghost predicate Inv<T>(s: State<T>) {
    RingInv(s) && CallsInv(s)
  }

  lemma {:induction false} LaterCalls<T>(calls: seq<T>, results: seq<bool>, item: T)
    requires |results| <= |calls|
    ensures Accepted(calls + [item], results) == Accepted(calls, results)
    decreases |results|
  {
    if results != [] {
      LaterCalls(calls, results[..|results| - 1], item);
    }
  }

  lemma CallsKept<T>(s: State<T>, step: Step<T>)
    requires CallsInv(s) && s.m > 0 && |s.buf| > 0 && Enabled(s, step)
    ensures CallsInv(Apply(s, step))
  {
    var t := Apply(s, step);
    if step.PushLoad? {
      LaterCalls(s.calls, s.results, step.item);
    } else if step.PushFull? || step.PushStore? {
      assert t.results[..|t.results| - 1] == s.results;
    }
  }

  lemma DiffOfCounts(a: nat, b: nat, m: nat)
    requires b <= a && a - b < m
    ensures Diff(a % m, b % m, m) == a - b
  {
    var q, r := b / m, b % m;
    assert b == q * m + r;
    if r + (a - b) < m {
      DivUnique(a, m, q, r + (a - b));
      DivUnique(a % m - r, m, 0, a - b);
    } else {
      assert (q + 1) * m == q * m + m;
      DivUnique(a, m, q + 1, r + (a - b) - m);
      DivUnique(a % m - r, m, -1, a - b);
    }
  }

  lemma SuccOfCount(a: nat, m: nat)
    requires m > 0
    ensures Succ(a % m, m) == (a + 1) % m
  {
    AddMod(a % m, a, 1, m);
    ModMod(a, m, m);
  }

  lemma AtSlot(a: nat, m: nat, c: nat)
    requires c > 0 && m > 0 && m % c == 0
    ensures (a % m) % c == a % c
  {
    ModMod(a, m, c);
  }

  /** The slot being written is none of the published ones. */
  lemma SlotFree<T>(s: State<T>, i: nat)
    requires ShapeInv(s) && SidesInv(s) && (s.prod.Copying? || s.prod.Copied?) && |s.popped| <= i < |s.pushed|
    ensures s.tail % |s.buf| != i % |s.buf| && s.tail % |s.buf| == |s.pushed| % |s.buf|
  {
    AtSlot(|s.pushed|, s.m, |s.buf|);
    ModApart(0, i, |s.pushed|, |s.buf|);
  }

  lemma WriteKeeps<T>(s: State<T>, x: T)
    requires RingInv(s) && s.prod.Copying?
    ensures ShapeInv(s.(buf := s.buf[s.tail % |s.buf| := x])) && DataInv(s.(buf := s.buf[s.tail % |s.buf| := x]))
  {
    forall i | |s.popped| <= i < |s.pushed|
      ensures s.buf[s.tail % |s.buf| := x][i % |s.buf|] == s.pushed[i]
    {
      SlotFree(s, i);
    }
  }

  lemma WritesKeep<T>(s: State<T>, step: Step<T>)
    requires RingInv(s) && Enabled(s, step) && (step.Scribble? || step.PushCopy?)
    ensures RingInv(Apply(s, step))
  {
    AtSlot(|s.pushed|, s.m, |s.buf|);
    WriteKeeps(s, if step.Scribble? then step.junk else s.prod.item);
  }

  lemma PublishKeeps<T>(s: State<T>)
    requires RingInv(s) && Enabled(s, PushStore)
    ensures RingInv(Apply(s, PushStore))
  {
    SuccOfCount(|s.pushed|, s.m);
  }

  lemma StartKeeps<T>(s: State<T>)
    requires RingInv(s) && Enabled(s, PushStart)
    ensures RingInv(Apply(s, PushStart))
  {
    DiffOfCounts(|s.pushed|, s.knownHead, s.m);
  }

  lemma ProducerKeeps<T>(s: State<T>, step: Step<T>)
    requires RingInv(s) && Enabled(s, step)
    requires step.PushLoad? || step.PushFull? || step.PushStart? || step.Scribble? || step.PushCopy? || step.PushStore?
    ensures RingInv(Apply(s, step))
  {
    match step
    case PushStart => StartKeeps(s);
    case PushStore => PublishKeeps(s);
    case Scribble(_) => WritesKeep(s, step);
    case PushCopy => WritesKeep(s, step);
    case _ =>
  }

  lemma ConsumerKeeps<T>(s: State<T>, step: Step<T>)
    requires RingInv(s) && Enabled(s, step)
    requires step.PopLoad? || step.PopEmpty? || step.PopStart? || step.PopCopy? || step.PopStore?
    ensures RingInv(Apply(s, step))
  {
    AtSlot(|s.popped|, s.m, |s.buf|);
    match step
    case PopStore => SuccOfCount(|s.popped|, s.m);
    case _ =>
  }

  lemma StepKeeps<T>(s: State<T>, step: Step<T>)
    requires Inv(s) && Enabled(s, step)
    ensures Inv(Apply(s, step))
  {
    CallsKept(s, step);
    match step
    case PopLoad(_) => ConsumerKeeps(s, step);
    case PopEmpty => ConsumerKeeps(s, step);
    case PopStart => ConsumerKeeps(s, step);
    case PopCopy => ConsumerKeeps(s, step);
    case PopStore => ConsumerKeeps(s, step);
    case _ => ProducerKeeps(s, step);
  }

  /** Each step leaves the bounded queue alone, except that publishing the producer's counter
      puts one item at its end and publishing the consumer's takes its first item out. */
  lemma StepRefines<T>(s: State<T>, step: Step<T>)
    requires Inv(s) && Enabled(s, step)
    ensures var t := Apply(s, step);
      && |t.popped| <= |t.pushed| && t.buf != [] && |Queue(t)| <= |t.buf|
      && (step.PushStore? ==> Queue(t) == Queue(s) + [s.prod.item])
      && (step.PopStore? ==> Queue(s) == [s.cons.got] + Queue(t))
      && (!step.PushStore? && !step.PopStore? ==> Queue(t) == Queue(s))
  {
    StepKeeps(s, step);
    var t := Apply(s, step);
    match step
    case PushStore => assert t.pushed[|t.popped|..] == s.pushed[|s.popped|..] + [s.prod.item];
    case PopStore => assert s.pushed[|s.popped|..] == [s.pushed[|s.popped|]] + s.pushed[|s.popped| + 1..];
    case _ => assert t.pushed == s.pushed && t.popped == s.popped;
  }

  /** A push is refused, and a pop returns nothing, exactly when the counters loaded say so; with
      the other side's current counter that is a full, respectively an empty, queue. */
  lemma RefusalsExact<T>(s: State<T>)
    requires Inv(s)
    ensures s.prod.Loaded? ==> (Enabled(s, PushFull) <==> |s.pushed| - s.knownHead == |s.buf|)
    ensures s.prod.Loaded? && s.knownHead == |s.popped| ==> (Enabled(s, PushFull) <==> |Queue(s)| == |s.buf|)
    ensures s.prod.Loaded? && |Queue(s)| == |s.buf| ==> Enabled(s, PushFull)
    ensures s.cons.Looked? ==> (Enabled(s, PopEmpty) <==> s.knownTail == |s.popped|)
    ensures s.cons.Looked? && s.knownTail == |s.pushed| ==> (Enabled(s, PopEmpty) <==> Queue(s) == [])
    ensures s.cons.Looked? && Queue(s) == [] ==> Enabled(s, PopEmpty)
  {
    DiffOfCounts(|s.pushed|, s.knownHead, s.m);
    DiffOfCounts(s.knownTail, |s.popped|, s.m);
    if s.head == s.knownTail % s.m {
      DiffSucc(s.head, s.head, s.m);
    }
  }

  /** The slot the producer writes is never one the consumer may be reading. */
  lemma NoRace<T>(s: State<T>)
    requires Inv(s) && (s.prod.Copying? || s.prod.Copied?) && (s.cons.Reading? || s.cons.Read?)
    ensures s.tail % |s.buf| != s.head % |s.buf|
  {
    AtSlot(|s.popped|, s.m, |s.buf|);
    SlotFree(s, |s.popped|);
  }

  predicate Runs<T(==)>(s: State<T>, steps: seq<Step<T>>, t: State<T>)
    requires s.m > 0 && |s.buf| > 0
    decreases |steps|
  {
    if steps == [] then t == s
    else Enabled(s, steps[0]) && Runs(Apply(s, steps[0]), steps[1..], t)
  }

  lemma {:induction false} RunKeeps<T>(s: State<T>, steps: seq<Step<T>>, t: State<T>)
    requires Inv(s) && Runs(s, steps, t)
    ensures Inv(t)
    decreases |steps|
  {
    if steps != [] {
      StepKeeps(s, steps[0]);
      RunKeeps(Apply(s, steps[0]), steps[1..], t);
    }
  }

  /** Whatever the interleaving and however stale the loads, the items popped are always a
      prefix of the items pushed, no more than the capacity are in between, and the two sides
      never touch the same slot, also after the counters wrap around. The items pushed are the
      arguments of the calls that returned true, in order. */
  lemma PoppedIsPrefix<T>(m: nat, buf: seq<T>, steps: seq<Step<T>>, t: State<T>)
    requires 0 < |buf| < m && m % |buf| == 0 && Runs(Init(m, buf), steps, t)
    ensures t.popped <= t.pushed && |t.pushed| - |t.popped| <= |t.buf|
    ensures |t.results| <= |t.calls| && t.pushed == Accepted(t.calls, t.results)
    ensures t.buf != [] && t.m > 0
    ensures (t.prod.Copying? || t.prod.Copied?) && (t.cons.Reading? || t.cons.Read?) ==>
      t.tail % |t.buf| != t.head % |t.buf|
  {
    RunKeeps(Init(m, buf), steps, t);
    if (t.prod.Copying? || t.prod.Copied?) && (t.cons.Reading? || t.cons.Read?) {
      NoRace(t);
    }
  }
}
