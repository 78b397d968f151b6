/** Draining an event ring into trace packets: full packets at once, a partial one only after
    its first record has waited, nothing lost when the transport refuses. */
module Telemetry {
  import opened Prelude
  import opened Rings

  const U64: nat := 0x1_0000_0000_0000_0000

  /** The waiting records, oldest first, and when the oldest was first seen (0: not yet). */
  datatype Backlog<T> = Backlog(items: seq<T>, firstWait: nat)

  /** Unsigned 64-bit time difference. */
  function Elapsed(now: nat, since: nat): nat {
    (now - since) % U64
  }

  /** One `drain_once`: the new state and the packet sent, if any. `accepts` is the transport's answer. */
  function DrainOnceSpec<T>(s: Backlog<T>, maxN: nat, waitUs: nat, now: nat, listening: bool, accepts: bool)
    : (Backlog<T>, Option<seq<T>>)
  {
    var n := |s.items|;
    if n == 0 || !listening then (Backlog([], 0), None)
    else
      var since := if s.firstWait == 0 then now else s.firstWait;
      if n < maxN && Elapsed(now, since) < waitUs then (s.(firstWait := since), None)
      else
        var k := if n > maxN then maxN else n;
        if !accepts then (s.(firstWait := since), None)
        else (Backlog(s.items[k..], if n > k then now else 0), Some(s.items[..k]))
  }

  /** A full packet waits, or the first record has been waiting for long enough. */
  predicate Due<T>(s: Backlog<T>, maxN: nat, waitUs: nat, now: nat) {
    |s.items| >= maxN || Elapsed(now, if s.firstWait == 0 then now else s.firstWait) >= waitUs
  }

  /** Refused, or with nothing due, the records stay and nothing is sent. A packet is due exactly when
      maxN records wait or the first has been waiting for waitUs; taken, it is the oldest records, as
      many as fit, and they leave. Without a listener the ring ends empty and nothing is sent. The
      waiting time of a record runs from the first drain that saw it in front. */
  lemma DrainExact<T>(s: Backlog<T>, maxN: nat, waitUs: nat, now: nat, listening: bool, accepts: bool)
    requires maxN > 0
    ensures var (t, sent) := DrainOnceSpec(s, maxN, waitUs, now, listening, accepts);
      && (!listening ==> t.items == [] && sent == None)
      && (listening ==> s.items == (if sent.Some? then sent.value else []) + t.items)
      && (sent.Some? <==> listening && accepts && s.items != [] && Due(s, maxN, waitUs, now))
      && (sent.Some? ==> |sent.value| == maxN || (|sent.value| < maxN && t.items == []))
      && (t.items == [] ==> t.firstWait == 0)
      && (t.items != [] && (sent.Some? || s.firstWait == 0) ==> t.firstWait == now)
      && (t.items != [] && sent == None && s.firstWait != 0 ==> t.firstWait == s.firstWait)
  {
  }

  /** `drain_ring`: again while a packet left and enough records remain, at most `tries` times. */
  function DrainRingSpec<T>(s: Backlog<T>, maxN: nat, waitUs: nat, now: nat, listening: bool, answers: seq<bool>)
    : (Backlog<T>, seq<seq<T>>)
    decreases |answers|
  {
    if answers == [] then (s, [])
    else
      var (t, packet) := DrainOnceSpec(s, maxN, waitUs, now, listening, answers[0]);
      var sent := Listed(packet);
      if |t.items| == |s.items| || |t.items| < maxN then (t, sent)
      else
        var (u, more) := DrainRingSpec(t, maxN, waitUs, now, listening, answers[1..]);
        (u, sent + more)
  }

  class EventRing<T(0)> {
    const modulus: nat
    const buffer: array<T>
    var head: nat
    var tail: nat
    var dropped: nat
    var firstWait: nat

    ghost predicate Valid()
      reads this
    {
      && 0 < buffer.Length < modulus && modulus % buffer.Length == 0
      && head < modulus && tail < modulus && Diff(head, tail, modulus) <= buffer.Length
    }

    ghost function View(): Backlog<T>
      requires Valid()
      reads this, buffer
    {
      Backlog(Window(buffer[..], tail, Diff(head, tail, modulus)), firstWait)
    }

    constructor (capacity: nat, modulus: nat)
      requires 0 < capacity < modulus && modulus % capacity == 0
      ensures Valid() && View() == Backlog([], 0) && buffer.Length == capacity && fresh(buffer)
    {
      this.modulus := modulus;
      buffer := new T[capacity];
      head, tail, dropped, firstWait := 0, 0, 0, 0;
      new;
      DiffSucc(0, 0, modulus);
    }

    method Size() returns (n: nat)
      requires Valid()
      ensures n == |View().items|
    {
      n := Diff(head, tail, modulus);
    }

    /** A full ring drops the record and counts it. */
    method Push(v: T) returns (ok: bool)
      requires Valid()
      modifies this`head, this`dropped, buffer
      ensures Valid() && ok == (|old(View()).items| < buffer.Length)
      ensures View() == if ok then old(View()).(items := old(View()).items + [v]) else old(View())
      ensures dropped == if ok then old(dropped) else old(dropped) + 1
    {
      if Diff(head, tail, modulus) > buffer.Length - 1 {
        dropped := dropped + 1;
        return false;
      }
      DiffSucc(head, tail, modulus);
      DiffSlot(head, tail, modulus, buffer.Length);
      ghost var b, n := buffer[..], Diff(head, tail, modulus);
      WindowStore(b, tail, n, head % buffer.Length, v);
      buffer[head % buffer.Length] := v;
      assert buffer[..] == b[head % buffer.Length := v];
      head := Succ(head, modulus);
      return true;
    }

    /** Copies the `n` oldest records into a packet. */
    method Copy(n: nat) returns (packet: seq<T>)
      requires Valid() && n <= |View().items|
      ensures packet == View().items[..n]
    {
      packet := [];
      for i := 0 to n
        invariant packet == View().items[..i]
      {
        var slot := ((tail + i) % modulus) % buffer.Length;
        ModMod(tail + i, modulus, buffer.Length);
        packet := packet + [buffer[slot]];
      }
    }

    /** `tail + n`, with wrap-around. */
    method Discard(n: nat)
      requires Valid() && n <= Diff(head, tail, modulus)
      modifies this`tail
      ensures Valid() && View() == old(View()).(items := old(View()).items[n..])
      ensures Diff(head, tail, modulus) == old(Diff(head, tail, modulus)) - n
      ensures tail == old(tail) <==> n == 0
    {
      DropMany(buffer[..], tail, Diff(head, tail, modulus), n, head, modulus);
      tail := (tail + n) % modulus;
    }

    method DrainOnce(maxN: nat, waitUs: nat, now: nat, listening: bool, accepts: bool) returns (sent: Option<seq<T>>)
      requires Valid() && maxN > 0
      modifies this`tail, this`firstWait
      ensures Valid() && (View(), sent) == DrainOnceSpec(old(View()), maxN, waitUs, now, listening, accepts)
      ensures tail == old(tail) <==> |View().items| == |old(View()).items|
    {
      var n := Diff(head, tail, modulus);
      if n == 0 {
        firstWait := 0;
        return None;
      }
      if !listening {
        Discard(n);
        firstWait := 0;
        return None;
      }
      if firstWait == 0 {
        firstWait := now;
      }
      if n < maxN && Elapsed(now, firstWait) < waitUs {
        return None;
      }
      if n > maxN {
        n := maxN;
      }
      var packet := Copy(n);
      if accepts {
        Discard(n);
        firstWait := if Diff(head, tail, modulus) != 0 then now else 0;
        return Some(packet);
      }
      return None;
    }

    method DrainRing(maxN: nat, waitUs: nat, now: nat, listening: bool, answers: seq<bool>) returns (sent: seq<seq<T>>)
      requires Valid() && maxN > 0 && |answers| == 4
      modifies this`tail, this`firstWait
      ensures Valid() && (View(), sent) == DrainRingSpec(old(View()), maxN, waitUs, now, listening, answers)
    {
      sent := [];
      ghost var all := DrainRingSpec(View(), maxN, waitUs, now, listening, answers);
      var i := 0;
      assert answers[0..] == answers && [] + all.1 == all.1;
      while i < 4
        invariant 0 <= i <= 4 && Valid()
        invariant all == Prepend(sent, DrainRingSpec(View(), maxN, waitUs, now, listening, answers[i..]))
        decreases 4 - i
      {
        var before := tail;
        Unfold(sent, View(), maxN, waitUs, now, listening, answers, i);
        var packet := DrainOnce(maxN, waitUs, now, listening, answers[i]);
        sent := sent + Listed(packet);
        var left := Size();
        if tail == before || left < maxN {
          return sent;
        }
        i := i + 1;
      }
      assert answers[4..] == [] && sent + [] == sent;
    }
  }

  function Prepend<T>(sent: seq<seq<T>>, r: (Backlog<T>, seq<seq<T>>)): (Backlog<T>, seq<seq<T>>) {
    (r.0, sent + r.1)
  }

  lemma Unfold<T>(sent: seq<seq<T>>, s: Backlog<T>, maxN: nat, waitUs: nat, now: nat, listening: bool,
                  answers: seq<bool>, i: nat)
    requires i < |answers|
    ensures var (t, packet) := DrainOnceSpec(s, maxN, waitUs, now, listening, answers[i]);
      Prepend(sent, DrainRingSpec(s, maxN, waitUs, now, listening, answers[i..])) ==
      if |t.items| == |s.items| || |t.items| < maxN then (t, sent + Listed(packet))
      else Prepend(sent + Listed(packet), DrainRingSpec(t, maxN, waitUs, now, listening, answers[i + 1..]))
  {
    assert answers[i..][1..] == answers[i + 1..];
    var (t, packet) := DrainOnceSpec(s, maxN, waitUs, now, listening, answers[i]);
    var more := DrainRingSpec(t, maxN, waitUs, now, listening, answers[i + 1..]).1;
    assert sent + (Listed(packet) + more) == sent + Listed(packet) + more;
  }

  /** Advancing the consumer's counter by `k` drops `k` records. */
  lemma DropMany<T>(buf: seq<T>, first: nat, n: nat, k: nat, head: nat, m: nat)
    requires 0 < |buf| < m && m % |buf| == 0 && first < m && head < m && n == Diff(head, first, m) && k <= n
    ensures Diff(head, (first + k) % m, m) == n - k
    ensures (first + k) % m == first <==> k == 0
    ensures Window(buf, (first + k) % m, n - k) == Window(buf, first, n)[k..]
  {
    var a := if first + k < m then first + k else first + k - m;
    DivUnique(first + k, m, if first + k < m then 0 else 1, a);
    var d := if head >= first then head - first else head - first + m;
    DivUnique(head - first, m, if head >= first then 0 else -1, d);
    DivUnique(head - a, m, if head >= a then 0 else -1, d - k);
    var l, r := Window(buf, (first + k) % m, n - k), Window(buf, first, n)[k..];
    forall i | 0 <= i < n - k
      ensures l[i] == r[i]
    {
      ModMod(first + k, m, |buf|);
      AddMod((first + k) % m, first + k, i, |buf|);
      assert first + k + i == first + (k + i);
    }
  }

  // ---------------------------------------------------------------------------
  // Runs while a listener is present
  // ---------------------------------------------------------------------------

  /** A record and the clock reading when it was pushed. */
  datatype Record = Record(id: nat, at: nat)

  datatype System = System(
    log: Backlog<Record>, cap: nat, maxN: nat, waitUs: nat, clock: nat,
    pushed: seq<Record>,        // every record the ring took
    dropped: nat,               // pushes a full ring refused
    sent: seq<seq<Record>>,     // the packets the transport took
    sentAt: seq<nat>)           // ... and when

  datatype Use = Push(id: nat) | Tick(us: nat) | Drain(accepts: bool)

  function Start(cap: nat, maxN: nat, waitUs: nat, clock: nat): System {
    System(Backlog([], 0), cap, maxN, waitUs, clock, [], 0, [], [])
  }

  function Do(s: System, u: Use): System {
    match u
    case Push(id) =>
      var r := Record(id, s.clock);
      if |s.log.items| >= s.cap then s.(dropped := s.dropped + 1)
      else s.(log := s.log.(items := s.log.items + [r]), pushed := s.pushed + [r])
    case Tick(us) => if s.clock + us < U64 then s.(clock := s.clock + us) else s
    case Drain(accepts) =>
      var (log, packet) := DrainOnceSpec(s.log, s.maxN, s.waitUs, s.clock, true, accepts);
      if accepts && packet.Some?
      then s.(log := log, sent := s.sent + [packet.value], sentAt := s.sentAt + [s.clock])
      else s.(log := log)
  }

  function DoAll(s: System, us: seq<Use>): System
    decreases |us|
  {
    if us == [] then s else DoAll(Do(s, us[0]), us[1..])
  }

  function Flatten<T>(q: seq<seq<T>>): seq<T> {
    if q == [] then [] else Flatten(q[..|q| - 1]) + q[|q| - 1]
  }

  ghost predicate Inv(s: System) {
    && s.maxN > 0 && s.clock < U64 && |s.log.items| <= s.cap
    && Flatten(s.sent) + s.log.items == s.pushed
    && (forall i :: 0 <= i < |s.log.items| ==> s.log.items[i].at <= s.clock)
    && s.log.firstWait <= s.clock
    && (s.log.items == [] ==> s.log.firstWait == 0)
    && (s.log.items != [] && s.log.firstWait != 0 ==> s.log.items[0].at <= s.log.firstWait)
    && |s.sentAt| == |s.sent|
    && (forall i :: 0 <= i < |s.sent| ==>
          && 1 <= |s.sent[i]| <= s.maxN
          && (|s.sent[i]| < s.maxN ==> s.sentAt[i] >= s.sent[i][0].at + s.waitUs))
  }

  lemma DrainKeeps(s: System, accepts: bool)
    requires Inv(s)
    ensures Inv(Do(s, Drain(accepts)))
  {
    var t := Do(s, Drain(accepts));
    var (log, packet) := DrainOnceSpec(s.log, s.maxN, s.waitUs, s.clock, true, accepts);
    if packet.Some? {
      var k := |packet.value|;
      assert t.sent[..|t.sent| - 1] == s.sent;
      assert s.log.items == s.log.items[..k] + s.log.items[k..];
      assert Flatten(t.sent) == Flatten(s.sent) + s.log.items[..k];
      if k < s.maxN {
        var since := if s.log.firstWait == 0 then s.clock else s.log.firstWait;
        assert Elapsed(s.clock, since) == s.clock - since;
      }
    }
  }

  lemma UseKeeps(s: System, u: Use)
    requires Inv(s)
    ensures Inv(Do(s, u))
  {
    match u
    case Push(id) =>
      var r := Record(id, s.clock);
      assert Flatten(s.sent) + (s.log.items + [r]) == Flatten(s.sent) + s.log.items + [r];
    case Tick(us) =>
    case Drain(accepts) => DrainKeeps(s, accepts);
  }

  lemma {:induction false} RunKeeps(s: System, us: seq<Use>)
    requires Inv(s)
    ensures Inv(DoAll(s, us))
    decreases |us|
  {
    if us != [] {
      UseKeeps(s, us[0]);
      RunKeeps(Do(s, us[0]), us[1..]);
    }
  }

  /** While a listener is present the records in the packets actually sent, one after another,
      followed by those still in the ring, are exactly the records the ring took, in order,
      however often the transport refuses; each packet has 1 to maxN records; and a packet with
      fewer is sent only when its first record has waited waitUs. */
  lemma NothingLost(cap: nat, maxN: nat, waitUs: nat, clock: nat, us: seq<Use>)
    requires maxN > 0 && clock < U64
    ensures var s := DoAll(Start(cap, maxN, waitUs, clock), us);
      && Flatten(s.sent) + s.log.items == s.pushed && |s.log.items| <= cap
      && |s.sentAt| == |s.sent|
      && forall i :: 0 <= i < |s.sent| ==>
           && 1 <= |s.sent[i]| <= maxN
           && (|s.sent[i]| < maxN ==> s.sentAt[i] >= s.sent[i][0].at + waitUs)
  {
    RunKeeps(Start(cap, maxN, waitUs, clock), us);
    SettingsKept(Start(cap, maxN, waitUs, clock), us);
  }

  lemma {:induction false} SettingsKept(s: System, us: seq<Use>)
    ensures var t := DoAll(s, us); t.maxN == s.maxN && t.waitUs == s.waitUs && t.cap == s.cap
    decreases |us|
  {
    if us != [] {
      SettingsKept(Do(s, us[0]), us[1..]);
    }
  }

  /** The drains that `drain_ring` makes with these answers of the transport. */
  function Drains(answers: seq<bool>, k: nat): seq<Use>
    requires k <= |answers|
    decreases k
  {
    if k == 0 then [] else [Drain(answers[0])] + Drains(answers[1..], k - 1)
  }

  /** The state after the first `k` of these single drains. */
  function After(s: System, answers: seq<bool>, k: nat): System
    requires k <= |answers|
  {
    DoAll(s, Drains(answers, k))
  }

  /** Nothing left the ring, or less than a packet is left in it. */
  predicate Stopped(s: System, t: System) {
    |t.log.items| == |s.log.items| || |t.log.items| < s.maxN
  }

  /** The first `k` single drains lead where `drain_ring` does and send the same packets; and `k` is
      the first drain to stop, or all of them. */
  predicate IsRun(s: System, answers: seq<bool>, k: nat) {
    && k <= |answers|
    && (var r := DrainRingSpec(s.log, s.maxN, s.waitUs, s.clock, true, answers);
       After(s, answers, k).log == r.0 && After(s, answers, k).sent == s.sent + r.1)
    && (forall j {:trigger After(s, answers, j)} :: 1 <= j < k ==>
          !Stopped(After(s, answers, j - 1), After(s, answers, j)))
    && (k == |answers| || (k > 0 && Stopped(After(s, answers, k - 1), After(s, answers, k))))
  }

  lemma AfterFirst(s: System, answers: seq<bool>, k: nat)
    requires k < |answers|
    ensures After(s, answers, 0) == s
    ensures After(s, answers, k + 1) == After(Do(s, Drain(answers[0])), answers[1..], k)
  {
    assert Drains(answers, k + 1)[1..] == Drains(answers[1..], k);
  }

  lemma DrainLogs(s: System, accepts: bool)
    ensures var (log, packet) := DrainOnceSpec(s.log, s.maxN, s.waitUs, s.clock, true, accepts);
      var u := Do(s, Drain(accepts));
      && u.log == log && u.sent == s.sent + Listed(packet)
      && u.maxN == s.maxN && u.waitUs == s.waitUs && u.clock == s.clock
  {
  }

  lemma OneMore(s: System, answers: seq<bool>, k: nat)
    requires answers != [] && !Stopped(s, Do(s, Drain(answers[0]))) && IsRun(Do(s, Drain(answers[0])), answers[1..], k)
    ensures IsRun(s, answers, k + 1)
  {
    var u := Do(s, Drain(answers[0]));
    DrainLogs(s, answers[0]);
    var (log, packet) := DrainOnceSpec(s.log, s.maxN, s.waitUs, s.clock, true, answers[0]);
    var more := DrainRingSpec(u.log, u.maxN, u.waitUs, u.clock, true, answers[1..]).1;
    assert s.sent + Listed(packet) + more == s.sent + (Listed(packet) + more);
    forall j | 0 <= j <= k
      ensures After(s, answers, j + 1) == After(u, answers[1..], j) && After(s, answers, 0) == s
      ensures After(u, answers[1..], 0) == u
    {
      AfterFirst(s, answers, j);
    }
    forall j {:trigger After(s, answers, j)} | 1 <= j < k + 1
      ensures !Stopped(After(s, answers, j - 1), After(s, answers, j))
    {
      if j > 1 {
        assert !Stopped(After(u, answers[1..], j - 2), After(u, answers[1..], j - 1));
      }
    }
  }

  /** `drain_ring` is a run of single drains, so all of the above holds of it; it goes on exactly
      while a packet left the ring and another full one waits, four times at most. */
  lemma {:induction false} RingIsDrains(s: System, answers: seq<bool>)
    ensures exists k: nat :: IsRun(s, answers, k)
    decreases |answers|
  {
    if answers == [] {
      assert After(s, answers, 0) == s && s.sent + [] == s.sent;
      assert IsRun(s, answers, 0);
    } else {
      var u := Do(s, Drain(answers[0]));
      DrainLogs(s, answers[0]);
      AfterFirst(s, answers, 0);
      assert After(u, answers[1..], 0) == u;
      if Stopped(s, u) {
        assert IsRun(s, answers, 1);
      } else {
        RingIsDrains(u, answers[1..]);
        var k: nat :| IsRun(u, answers[1..], k);
        OneMore(s, answers, k);
      }
    }
  }
}
