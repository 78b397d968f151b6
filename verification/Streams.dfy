/** Autonomous stream packets of one channel: a coroutine may wait for the next packet or for
    a batch written into its own buffer; packets nobody waits for are dropped and counted. */
module Streams {
  import opened Prelude

  /** What the engine reads of a packet; `body` stands for the rest of it. */
  datatype Body = Blank | QueueFull | Data(n: nat)
  datatype Tlp = Tlp(stream: bool, tag: nat, channel: nat, body: Body)

  const EMPTY: Tlp := Tlp(false, 0, 0, Blank)
  const CHANNELS: nat := 8

  /** A client buffer: its address, if any, and its length. */
  datatype Span = Span(data: Option<nat>, size: nat)

  const NO_SPAN: Span := Span(None, 0)

  /** The engine's slots for one channel. */
  datatype Channel = Channel(
    awaiter: Option<nat>, out: Span, min: nat, count: nat, latest: Tlp, noConsumer: nat, batchFull: nat)

  /** Client memory: the contents of the buffer at each address. */
  type Memory = map<nat, seq<Tlp>>

  function Written(mem: Memory, out: Span, idx: nat, tlp: Tlp): Memory {
    if out.data.Some? && out.data.value in mem && idx < |mem[out.data.value]|
    then mem[out.data.value := mem[out.data.value][idx := tlp]] else mem
  }

  /** One polled stream packet: the new slots and memory, and the coroutine posted. */
  function PollSpec(c: Channel, mem: Memory, tlp: Tlp): (Channel, Memory, Option<nat>) {
    if c.awaiter == None then (c.(noConsumer := c.noConsumer + 1), mem, None)
    else if c.out.size > 0 then
      var (b, m) :=
        if c.count < c.out.size then (c.(count := c.count + 1), Written(mem, c.out, c.count, tlp))
        else (c.(batchFull := c.batchFull + 1), mem);
      if b.count >= b.min then (b.(out := NO_SPAN, awaiter := None), m, c.awaiter) else (b, m, None)
    else (c.(latest := tlp, awaiter := None), mem, c.awaiter)
  }

  /** A poll posts exactly the coroutine it takes out of the slot. It takes one out when a packet was
      all it waited for, or the batch has as many packets as it waits for; without anybody in the
      slot only the counter of such packets moves. No memory but the batch's buffer is written. */
  lemma PollPosts(c: Channel, mem: Memory, tlp: Tlp)
    ensures var (d, m, posted) := PollSpec(c, mem, tlp);
      && (posted.Some? ==> d.awaiter == None && posted == c.awaiter)
      && (posted == None ==> d.awaiter == c.awaiter)
      && (posted.Some? <==> c.awaiter.Some? && (c.out.size == 0 || d.count >= c.min))
      && (c.awaiter == None ==> m == mem && d == c.(noConsumer := c.noConsumer + 1))
      && (c.awaiter.Some? && c.out.size == 0 ==> d.latest == tlp && d.count == c.count && m == mem)
      && (c.awaiter.Some? && c.out.size > 0 && c.count < c.out.size ==> d.count == c.count + 1 && d.latest == c.latest)
      && m.Keys == mem.Keys && forall a :: a in mem && Some(a) != c.out.data ==> m[a] == mem[a]
  {
  }

  /** `StreamAwaiter::await_suspend`: registered, or refused. */
  function WaitSpec(c: Channel, h: nat): (bool, Channel) {
    if c.awaiter.Some? then (false, c) else (true, c.(out := NO_SPAN, awaiter := Some(h)))
  }

  /** `~StreamAwaiter` of the awaiter that registered `mine`, if it did. */
  function DestroyWaitSpec(c: Channel, mine: Option<nat>): Channel {
    if mine.Some? && c.awaiter == mine then c.(awaiter := None) else c
  }

  function Clamp(minCount: nat, size: nat): nat {
    if minCount == 0 then 1 else if minCount > size then size else minCount
  }

  /** `StreamBatchAwaiter::await_suspend`. */
  function BatchSpec(c: Channel, out: Span, minCount: nat, h: nat): (bool, Channel) {
    if c.awaiter.Some? || out.size == 0 then (false, c)
    else (true, c.(out := out, min := Clamp(minCount, out.size), count := 0, awaiter := Some(h)))
  }

  /** `~StreamBatchAwaiter`: withdraws whatever waits if the channel's buffer has its address. */
  function DestroyBatchSpec(c: Channel, out: Span): Channel {
    if c.out.data == out.data then c.(out := NO_SPAN, awaiter := None) else c
  }
}
