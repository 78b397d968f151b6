/** The split-transaction engine: requests get a tag and wait in its slot, completions are
    matched by tag, stream packets go to their channel. */
module IoEngines {
  import opened Prelude
  import opened TagAllocator
  import opened Streams

  /** What `refused_completion` returns: a completion with no tag that says the queue is full. */
  const REFUSED: Tlp := Tlp(false, 0, 0, QueueFull)

  datatype Engine = Engine(
    tags: Tags, coros: seq<Option<nat>>, resps: seq<Tlp>,
    tx: seq<Tlp>, txCap: nat, channels: seq<Channel>, mem: Memory)

  predicate EngineOk(e: Engine) {
    TagsOk(e.tags) && |e.coros| == |e.resps| == TAGS + 1 && |e.channels| == CHANNELS
  }

  /** A request awaiter's `await_suspend`: the tag (0 when none was free) and whether it was sent. */
  function SubmitSpec(e: Engine, h: nat, req: Tlp): (nat, bool, Engine)
    requires EngineOk(e)
  {
    var (t, tags) := AllocateSpec(e.tags);
    if t == 0 then (0, false, e)
    else
      var r := e.(tags := tags, resps := e.resps[t := EMPTY]);
      if |e.tx| >= e.txCap
      then (t, false, r.(tags := ReleaseSpec(tags, t), coros := e.coros[t := None]))
      else (t, true, r.(coros := e.coros[t := Some(h)], tx := e.tx + [req.(tag := t)]))
  }

  /** `await_resume` of a request awaiter. */
  function ResumeSpec(e: Engine, t: nat, sent: bool): Tlp
    requires EngineOk(e) && t <= TAGS
  {
    if sent then e.resps[t] else REFUSED
  }

  /** The request awaiter's destructor. */
  function DestroySpec(e: Engine, t: nat, sent: bool): Engine
    requires EngineOk(e) && t <= TAGS
  {
    if t != 0 && sent then e.(coros := e.coros[t := None]) else e
  }

  /** `poll_completions` for one packet: the new state and the coroutine posted. */
  function PollOneSpec(e: Engine, tlp: Tlp): (Engine, Option<nat>)
    requires EngineOk(e)
  {
    if tlp.stream then
      if tlp.channel >= CHANNELS then (e, None)
      else
        var (c, mem, posted) := PollSpec(e.channels[tlp.channel], e.mem, tlp);
        (e.(channels := e.channels[tlp.channel := c], mem := mem), posted)
    else if tlp.tag <= TAGS && e.tags.active[tlp.tag] then
      (e.(tags := ReleaseSpec(e.tags, tlp.tag), resps := e.resps[tlp.tag := tlp], coros := e.coros[tlp.tag := None]),
       e.coros[tlp.tag])
    else (e, None)
  }

  /** All packets in order, with the coroutines posted in order. */
  function PollSpecAll(e: Engine, rx: seq<Tlp>): (Engine, seq<nat>)
    requires EngineOk(e)
    ensures EngineOk(PollSpecAll(e, rx).0)
  {
    if rx == [] then (e, [])
    else
      var (d, posted) := PollSpecAll(e, rx[..|rx| - 1]);
      var (f, p) := PollOneSpec(d, rx[|rx| - 1]);
      (f, if p.Some? then posted + [p.value] else posted)
  }

  // ---------------------------------------------------------------------------
  // What polling does
  // ---------------------------------------------------------------------------

  /** A stream packet touches nothing but the channel of its own number and the buffer of the batch
      that waits there; any other packet nothing but the entry of its own tag, and that only while
      the tag is in use, which it then ends. */
  lemma PacketLocal(e: Engine, tlp: Tlp)
    requires EngineOk(e)
    ensures var d := PollOneSpec(e, tlp).0;
      && EngineOk(d) && d.tx == e.tx && d.txCap == e.txCap && d.tags.last == e.tags.last
      && (forall t :: 0 <= t <= TAGS && (tlp.stream || t != tlp.tag || !e.tags.active[t]) ==>
            d.tags.active[t] == e.tags.active[t] && d.coros[t] == e.coros[t] && d.resps[t] == e.resps[t])
      && (forall c :: 0 <= c < CHANNELS && (!tlp.stream || c != tlp.channel) ==> d.channels[c] == e.channels[c])
      && (!tlp.stream ==> d.mem == e.mem)
      && (!tlp.stream && tlp.tag <= TAGS && e.tags.active[tlp.tag] ==>
            !d.tags.active[tlp.tag] && d.resps[tlp.tag] == tlp)
      && d.mem.Keys == e.mem.Keys
      && forall a :: a in e.mem && d.mem[a] != e.mem[a] ==>
           tlp.stream && tlp.channel < CHANNELS && e.channels[tlp.channel].out.data == Some(a)
  {
    if tlp.stream && tlp.channel < CHANNELS {
      PollPosts(e.channels[tlp.channel], e.mem, tlp);
    }
  }

  /** Where a coroutine waits for a packet: the slot of a tag, or that of a channel. */
  datatype Slot = TagSlot(t: nat) | ChannelSlot(c: nat)

  predicate IsSlot(w: Slot) {
    match w
    case TagSlot(t) => t <= TAGS
    case ChannelSlot(c) => c < CHANNELS
  }

  function Sleeper(e: Engine, w: Slot): Option<nat>
    requires EngineOk(e) && IsSlot(w)
  {
    match w
    case TagSlot(t) => e.coros[t]
    case ChannelSlot(c) => e.channels[c].awaiter
  }

  /** The slot a packet is for. */
  function SlotOf(tlp: Tlp): Slot {
    if tlp.stream then ChannelSlot(tlp.channel) else TagSlot(tlp.tag)
  }

  /** A packet posts the coroutine whose slot it empties, and nobody if it empties none; an answer to
      a request in flight empties its slot. */
  lemma PacketPosts(e: Engine, tlp: Tlp)
    requires EngineOk(e)
    ensures var (d, posted) := PollOneSpec(e, tlp);
      && EngineOk(d)
      && (forall w :: IsSlot(w) && w != SlotOf(tlp) ==> Sleeper(d, w) == Sleeper(e, w))
      && (posted.Some? ==>
            IsSlot(SlotOf(tlp)) && Sleeper(e, SlotOf(tlp)) == posted && Sleeper(d, SlotOf(tlp)) == None)
      && (posted == None && IsSlot(SlotOf(tlp)) ==> Sleeper(d, SlotOf(tlp)) == Sleeper(e, SlotOf(tlp)))
      && (!tlp.stream && tlp.tag <= TAGS && e.tags.active[tlp.tag] ==> Sleeper(d, SlotOf(tlp)) == None)
  {
    PacketLocal(e, tlp);
    if tlp.stream && tlp.channel < CHANNELS {
      PollPosts(e.channels[tlp.channel], e.mem, tlp);
    }
  }

  /** Polling some packets and then others is polling them all: packets are taken, and coroutines
      posted, in the order of arrival. */
  lemma {:induction false} PollInOrder(e: Engine, first: seq<Tlp>, rest: seq<Tlp>)
    requires EngineOk(e)
    ensures var (d, p) := PollSpecAll(e, first);
      var (f, q) := PollSpecAll(d, rest);
      PollSpecAll(e, first + rest) == (f, p + q)
    decreases |rest|
  {
    var (d, p) := PollSpecAll(e, first);
    if rest == [] {
      assert first + rest == first && p + [] == p;
    } else {
      var all, most, last := first + rest, rest[..|rest| - 1], rest[|rest| - 1];
      assert all[..|all| - 1] == first + most && all[|all| - 1] == last;
      PollInOrder(e, first, most);
      var (g, q) := PollSpecAll(d, most);
      var x := PollOneSpec(g, last).1;
      assert p + q + Listed(x) == p + (q + Listed(x));
    }
  }

  lemma PollOneAlone(e: Engine, tlp: Tlp)
    requires EngineOk(e)
    ensures PollSpecAll(e, [tlp]) == (PollOneSpec(e, tlp).0, Listed(PollOneSpec(e, tlp).1))
  {
    var rx, none: seq<Tlp> := [tlp], [];
    assert rx[..|rx| - 1] == none && rx[|rx| - 1] == tlp;
    assert PollSpecAll(e, none) == (e, []);
    var nobody: seq<nat> := [];
    var x := PollOneSpec(e, tlp).1;
    assert PollSpecAll(e, rx) == (PollOneSpec(e, tlp).0, if x.Some? then nobody + [x.value] else nobody);
    assert x.Some? ==> nobody + [x.value] == Listed(x);
  }

  /** Who waits in these slots, counted. */
  function Sleepers(slots: seq<Option<nat>>): multiset<nat> {
    if slots == [] then multiset{}
    else Sleepers(slots[1..]) + if slots[0].Some? then multiset{slots[0].value} else multiset{}
  }

  function Slots(e: Engine): (r: seq<Option<nat>>)
    requires EngineOk(e)
    ensures |r| == TAGS + 1 + CHANNELS
  {
    e.coros + seq(CHANNELS, c requires 0 <= c < CHANNELS => e.channels[c].awaiter)
  }

  lemma {:induction false} SlotEmptied(a: seq<Option<nat>>, b: seq<Option<nat>>, i: nat)
    requires |a| == |b| && i < |a| && forall k :: 0 <= k < |a| && k != i ==> a[k] == b[k]
    requires a[i].Some? && b[i] == None
    ensures Sleepers(a) == Sleepers(b) + multiset{a[i].value}
  {
    if i == 0 {
      assert a[1..] == b[1..];
    } else {
      SlotEmptied(a[1..], b[1..], i - 1);
    }
  }

  lemma OnePolled(e: Engine, tlp: Tlp)
    requires EngineOk(e)
    ensures var (d, posted) := PollOneSpec(e, tlp);
      EngineOk(d) && Sleepers(Slots(e)) == Sleepers(Slots(d)) + multiset(Listed(posted))
  {
    var (d, posted) := PollOneSpec(e, tlp);
    PacketPosts(e, tlp);
    var i := if tlp.stream then TAGS + 1 + tlp.channel else tlp.tag;
    SlotsAre(e);
    SlotsAre(d);
    if posted.Some? {
      SlotEmptied(Slots(e), Slots(d), i);
    } else {
      assert Slots(d) == Slots(e);
    }
  }

  lemma SlotsAre(e: Engine)
    requires EngineOk(e)
    ensures forall k :: 0 <= k <= TAGS ==> Slots(e)[k] == Sleeper(e, TagSlot(k))
    ensures forall k :: TAGS < k < |Slots(e)| ==> Slots(e)[k] == Sleeper(e, ChannelSlot(k - TAGS - 1))
  {
  }

  /** Every coroutine that polling takes out of a slot is posted, once, and nobody else is. */
  lemma {:induction false} NobodyForgotten(e: Engine, rx: seq<Tlp>)
    requires EngineOk(e)
    ensures var (d, posted) := PollSpecAll(e, rx);
      Sleepers(Slots(e)) == Sleepers(Slots(d)) + multiset(posted)
    decreases |rx|
  {
    if rx != [] {
      var most, last := rx[..|rx| - 1], rx[|rx| - 1];
      var (d, posted) := PollSpecAll(e, most);
      NobodyForgotten(e, most);
      OnePolled(d, last);
    }
  }

  // ---------------------------------------------------------------------------
  // Requests
  // ---------------------------------------------------------------------------

  /** A request is refused exactly when no tag is free or the transmit ring is full, and then
      the awaiter returns the queue-full completion. */
  lemma RefusedExactly(e: Engine, h: nat, req: Tlp)
    requires EngineOk(e)
    ensures var (t, sent, r) := SubmitSpec(e, h, req);
      && EngineOk(r) && t <= TAGS
      && (!sent <==> (forall u :: 1 <= u <= TAGS ==> e.tags.active[u]) || |e.tx| >= e.txCap)
      && (!sent ==> ResumeSpec(r, t, sent) == REFUSED && r.tx == e.tx && r.tags.active == e.tags.active)
      && (sent ==>
            && t != 0 && !e.tags.active[t] && r.tags.active == e.tags.active[t := true]
            && r.tx == e.tx + [req.(tag := t)] && r.coros == e.coros[t := Some(h)] && r.resps[t] == EMPTY)
      && (!sent ==> forall u :: 0 <= u <= TAGS && r.coros[u] != e.coros[u] ==> !e.tags.active[u] && r.coros[u] == None)
      && (forall u :: 0 <= u <= TAGS && e.tags.active[u] ==> r.resps[u] == e.resps[u])
      && r.channels == e.channels && r.mem == e.mem
  {
    AllocateExact(e.tags);
    var (t, sent, r) := SubmitSpec(e, h, req);
    if t != 0 && !sent {
      assert e.tags.active[t := true][t := false] == e.tags.active;
    }
  }

  class CoroutineIoEngine {
    var nextTag: nat
    const active: array<bool>
    const coro: array<Option<nat>>
    const response: array<Tlp>
    const txCap: nat
    var tx: seq<Tlp>
    var rx: seq<Tlp>
    const channel: array<Channel>
    var mem: Memory  // the buffers clients passed to batch awaiters

    ghost predicate Valid()
      reads this
    {
      && active.Length == coro.Length == response.Length == TAGS + 1 && channel.Length == CHANNELS
      && 1 <= nextTag <= TAGS
    }

    ghost function View(): (e: Engine)
      requires Valid()
      reads this, active, coro, response, channel
      ensures EngineOk(e)
    {
      Engine(Tags(active[..], nextTag), coro[..], response[..], tx, txCap, channel[..], mem)
    }

    constructor (txCap: nat, mem: Memory)
      ensures Valid() && fresh(active) && fresh(coro) && fresh(response) && fresh(channel)
      ensures this.txCap == txCap && tx == [] && rx == [] && this.mem == mem && nextTag == 1
      ensures forall t :: 0 <= t <= TAGS ==> !active[t] && coro[t] == None
      ensures forall c :: 0 <= c < CHANNELS ==> channel[c] == Channel(None, NO_SPAN, 0, 0, EMPTY, 0, 0)
    {
      nextTag, tx, rx := 1, [], [];
      this.txCap, this.mem := txCap, mem;
      active := new bool[TAGS + 1](_ => false);
      coro := new Option<nat>[TAGS + 1](_ => None);
      response := new Tlp[TAGS + 1](_ => EMPTY);
      channel := new Channel[CHANNELS](_ => Channel(None, NO_SPAN, 0, 0, EMPTY, 0, 0));
    }

    /** Hands out the first free tag of the scan, its stored response cleared; 0 if there is none. */
    method AllocateTag() returns (tag: nat)
      requires Valid()
      modifies this`nextTag, active, response
      ensures Valid() && (tag, Tags(active[..], nextTag)) == AllocateSpec(old(Tags(active[..], nextTag)))
      ensures response[..] == if tag == 0 then old(response[..]) else old(response[..])[tag := EMPTY]
    {
      ghost var s := Tags(active[..], nextTag);
      for i := 1 to TAGS + 1
        invariant Valid() && s == Tags(active[..], nextTag) && response[..] == old(response[..])
        invariant FirstFree(s, 1) == FirstFree(s, i)
      {
        tag := (nextTag + i) % TAGS + 1;
        assert active[tag] == s.active[Candidate(s.last, i)];
        if !active[tag] {
          nextTag := tag;
          active[tag] := true;
          response[tag] := EMPTY;
          assert active[..] == s.active[tag := true];
          assert response[..] == old(response[..])[tag := EMPTY];
          return;
        }
      }
      tag := 0;
    }

    method ReleaseTag(tag: nat)
      requires Valid() && tag <= TAGS
      modifies active, coro
      ensures active[..] == old(active[..])[tag := false] && coro[..] == old(coro[..])[tag := None]
    {
      active[tag] := false;
      coro[tag] := None;
    }

    /** `await_suspend` of a request awaiter of coroutine `h`. */
    method Submit(h: nat, req: Tlp) returns (tag: nat, sent: bool)
      requires Valid()
      modifies this`nextTag, this`tx, active, response, coro
      ensures Valid() && (tag, sent, View()) == SubmitSpec(old(View()), h, req)
    {
      ghost var e := View();
      AllocateExact(e.tags);
      tag := AllocateTag();
      if tag == 0 {
        return tag, false;
      }
      coro[tag] := Some(h);
      assert coro[..] == e.coros[tag := Some(h)];
      if |tx| >= txCap {
        ReleaseTag(tag);
        assert coro[..] == e.coros[tag := None];
        return tag, false;
      }
      tx := tx + [req.(tag := tag)];
      return tag, true;
    }

    method Resume(tag: nat, sent: bool) returns (r: Tlp)
      requires Valid() && tag <= TAGS
      ensures r == ResumeSpec(View(), tag, sent)
    {
      r := if sent then response[tag] else REFUSED;
    }

    method Destroy(tag: nat, sent: bool)
      requires Valid() && tag <= TAGS
      modifies coro
      ensures View() == DestroySpec(old(View()), tag, sent)
    {
      if tag != 0 && sent {
        coro[tag] := None;
        assert coro[..] == old(coro[..])[tag := None];
      }
    }

    /** One packet off the receive ring. */
    method PollOne(tlp: Tlp) returns (posted: Option<nat>)
      requires Valid()
      modifies this`mem, active, response, coro, channel
      ensures (View(), posted) == PollOneSpec(old(View()), tlp)
    {
      posted := None;
      if tlp.stream {
        if tlp.channel < CHANNELS {
          var (c, m, p) := PollSpec(channel[tlp.channel], mem, tlp);
          channel[tlp.channel] := c;
          assert channel[..] == old(channel[..])[tlp.channel := c];
          mem, posted := m, p;
        }
      } else if tlp.tag <= TAGS && active[tlp.tag] {
        response[tlp.tag] := tlp;
        active[tlp.tag] := false;
        posted := coro[tlp.tag];
        coro[tlp.tag] := None;
        assert response[..] == old(response[..])[tlp.tag := tlp];
        assert active[..] == old(active[..])[tlp.tag := false];
        assert coro[..] == old(coro[..])[tlp.tag := None];
      }
    }

    /** Empties the receive ring; `posted` are the coroutines made ready, in order. */
    method PollCompletions() returns (processed: nat, posted: seq<nat>)
      requires Valid()
      modifies this`mem, this`rx, active, response, coro, channel
      ensures Valid() && rx == [] && processed == |old(rx)|
      ensures (View(), posted) == PollSpecAll(old(View()), old(rx))
    {
      ghost var all, e := rx, View();
      processed, posted := 0, [];
      while rx != []
        invariant processed <= |all| && rx == all[processed..]
        invariant (View(), posted) == PollSpecAll(e, all[..processed])
        decreases |rx|
      {
        var tlp := rx[0];
        rx := rx[1..];
        ghost var before := all[..processed];
        assert all[..processed + 1] == before + [tlp];
        processed := processed + 1;
        assert all[..processed][..processed - 1] == before;
        var p := PollOne(tlp);
        if p.Some? {
          posted := posted + [p.value];
        }
      }
      assert all[..processed] == all;
    }

    /** `StreamAwaiter::await_suspend` on any channel number. */
    method WaitStream(ch: nat, h: nat) returns (ok: bool)
      requires Valid()
      modifies channel
      ensures ok == (ch < CHANNELS && old(channel[..])[ch].awaiter == None)
      ensures !ok ==> View() == old(View())
      ensures ok ==>
        var e := old(View());
        View() == e.(channels := e.channels[ch := WaitSpec(e.channels[ch], h).1])
    {
      if ch >= CHANNELS || channel[ch].awaiter.Some? {
        return false;
      }
      channel[ch] := channel[ch].(out := NO_SPAN, awaiter := Some(h));
      assert channel[..] == old(channel[..])[ch := WaitSpec(old(channel[..])[ch], h).1];
      return true;
    }

    /** `StreamBatchAwaiter::await_suspend`. */
    method WaitBatch(ch: nat, out: Span, minCount: nat, h: nat) returns (ok: bool)
      requires Valid()
      modifies channel
      ensures ok == (ch < CHANNELS && out.size > 0 && old(channel[..])[ch].awaiter == None)
      ensures !ok ==> View() == old(View())
      ensures ok ==>
        var e := old(View());
        View() == e.(channels := e.channels[ch := BatchSpec(e.channels[ch], out, minCount, h).1])
    {
      if ch >= CHANNELS || channel[ch].awaiter.Some? || out.size == 0 {
        return false;
      }
      var target := if minCount == 0 then 1 else if minCount > out.size then out.size else minCount;
      channel[ch] := channel[ch].(out := out, min := target, count := 0, awaiter := Some(h));
      assert channel[..] == old(channel[..])[ch := BatchSpec(old(channel[..])[ch], out, minCount, h).1];
      return true;
    }
  }
}
